/**
 * The CSR instructions, bit by bit, and the interrupt bits of `mstatus`: section
 * 9.1 of the RISC-V Unprivileged ISA, version 20191213, and section 3.1.6.1 of the
 * Privileged ISA, version 20211203.
 */
module Csrs {
  import opened Bits
  import opened HostImports
  import opened Instructions
  import opened Machine
  import opened Formats
  import opened Interrupts

  /** A CSR instruction: `num` in the immediate field, and a register or a five-bit constant in `rs1`. */
  function EncodeCsr(funct3: bv3, rd: bv5, rs1: bv5, num: bv12): bv32 {
    EncodeI(OP_SYSTEM, rd, funct3, rs1, num as bv32)
  }

  lemma CsrFields(funct3: bv3, rd: bv5, rs1: bv5, num: bv12)
    ensures CsrNumber(EncodeCsr(funct3, rd, rs1, num)) == num
  {
  }

  /** The operand: a register for funct3 1 to 3, the zero-extended field for 5 to 7. */
  function Operand(m: Machine, funct3: bv3, rs1: bv5): bv32 {
    if funct3 == 5 || funct3 == 6 || funct3 == 7 then rs1 as bv32 else ReadReg(m, rs1)
  }

  /** What bit `k` becomes: written, set or cleared. */
  predicate NewBit(funct3: bv3, was: bool, operand: bool) {
    if funct3 == 1 || funct3 == 5 then operand
    else if funct3 == 2 || funct3 == 6 then was || operand
    else if funct3 == 3 || funct3 == 7 then was && !operand
    else was
  }

  lemma ResultForms(was: bv32, src: bv32, imm: bv32)
    ensures CsrResult(1, was, src, imm) == src && CsrResult(5, was, src, imm) == imm
            && CsrResult(4, was, src, imm) == was
    ensures CsrResult(2, was, src, imm) == Or(was, src) && CsrResult(6, was, src, imm) == Or(was, imm)
    ensures CsrResult(3, was, src, imm) == And(was, Not(src)) && CsrResult(7, was, src, imm) == And(was, Not(imm))
  {
    hide Or, And, Not;
  }

  /** The words the executor computes have those bits. */
  lemma RegisterFormBits(was: bv32, src: bv32, imm: bv32, k: nat)
    ensures BitAt(CsrResult(1, was, src, imm), k) <==> BitAt(src, k)
    ensures BitAt(CsrResult(2, was, src, imm), k) <==> BitAt(was, k) || BitAt(src, k)
    ensures BitAt(CsrResult(3, was, src, imm), k) <==> BitAt(was, k) && !BitAt(src, k)
  {
    hide BitAt, Or, And, Not, CsrResult;
    ResultForms(was, src, imm);
    BitwiseBits(was, src, k);
  }

  lemma ImmediateFormBits(was: bv32, src: bv32, imm: bv32, k: nat)
    ensures BitAt(CsrResult(5, was, src, imm), k) <==> BitAt(imm, k)
    ensures BitAt(CsrResult(6, was, src, imm), k) <==> BitAt(was, k) || BitAt(imm, k)
    ensures BitAt(CsrResult(7, was, src, imm), k) <==> BitAt(was, k) && !BitAt(imm, k)
  {
    hide BitAt, Or, And, Not, CsrResult;
    ResultForms(was, src, imm);
    BitwiseBits(was, imm, k);
  }

  lemma ResultBits(funct3: bv3, was: bv32, src: bv32, imm: bv32, k: nat)
    requires funct3 != 0
    ensures var operand := if funct3 == 5 || funct3 == 6 || funct3 == 7 then BitAt(imm, k) else BitAt(src, k);
            BitAt(CsrResult(funct3, was, src, imm), k) <==> NewBit(funct3, BitAt(was, k), operand)
  {
    hide BitAt, CsrResult;
    if funct3 == 1 || funct3 == 2 || funct3 == 3 {
      RegisterFormBits(was, src, imm, k);
    } else if funct3 == 5 || funct3 == 6 || funct3 == 7 {
      ImmediateFormBits(was, src, imm, k);
    } else {
      OnlyFour(funct3);
      ResultForms(was, src, imm);
    }
  }

  lemma OnlyFour(f: bv3)
    requires f != 0 && f != 1 && f != 2 && f != 3 && f != 5 && f != 6 && f != 7
    ensures f == 4
  {
  }

  lemma CsrArm(o: Oracle, m: Machine, funct3: bv3, rd: bv5, rs1: bv5, num: bv12, next: bv32)
    requires funct3 != 0
    ensures var was := GetCsr(m, num);
            Dispatch(o, m, Decode(EncodeCsr(funct3, rd, rs1, num)), next) ==
            Done(WriteReg(SetCsr(m, num, CsrResult(funct3, was, ReadReg(m, rs1), rs1 as bv32)), rd, was), next)
  {
    hide Dispatch, Decode, EncodeI, CsrNumber, CsrResult, GetCsr, SetCsr, ReadReg, WriteReg, ExecEcall, ExecMret;
    DecodeI(OP_SYSTEM, rd, funct3, rs1, num as bv32);
    CsrFields(funct3, rd, rs1, num);
    RouteSystem(o, m, Decode(EncodeCsr(funct3, rd, rs1, num)), next);
  }

  /**
   * A CSR instruction puts the old value of its CSR into rd and changes each bit of
   * the CSR as its kind says: CSRRW(I) writes the operand's bit, CSRRS(I) sets where
   * the operand has a one, CSRRC(I) clears there. No other CSR changes, and nothing
   * else but the pc.
   */
  lemma CsrInstruction(o: Oracle, m: Machine, funct3: bv3, rd: bv5, rs1: bv5, num: bv12)
    requires funct3 != 0
    ensures var r := Execute32(o, m, EncodeCsr(funct3, rd, rs1, num));
            && r.Ok?
            && r.m == WriteReg(m.(pc := Plus(m.pc, 4), csrs := r.m.csrs), rd, GetCsr(m, num))
            && (forall k: nat :: BitAt(GetCsr(r.m, num), k) <==>
                  NewBit(funct3, BitAt(GetCsr(m, num), k), BitAt(Operand(m, funct3, rs1), k)))
            && (forall n: bv12 :: n != num ==> GetCsr(r.m, n) == GetCsr(m, n))
  {
    hide Dispatch, Decode, EncodeCsr, CsrResult, ReadReg, BitAt, NewBit, Plus, SetCsr, GetCsr, WriteReg;
    var was := GetCsr(m, num);
    var now := CsrResult(funct3, was, ReadReg(m, rs1), rs1 as bv32);
    CsrArm(o, m, funct3, rd, rs1, num, Plus(m.pc, 4));
    var m1 := SetCsr(m, num, now);
    SetThenGet(m, num, num, now);
    WriteLeavesCsrs(m1, rd, was, Plus(m.pc, 4));
    assert m1 == m.(csrs := m1.csrs);
    var m' := WriteReg(m1, rd, was).(pc := Plus(m.pc, 4));
    forall k: nat
      ensures BitAt(GetCsr(m', num), k) <==> NewBit(funct3, BitAt(was, k), BitAt(Operand(m, funct3, rs1), k))
    {
      ResultBits(funct3, was, ReadReg(m, rs1), rs1 as bv32, k);
    }
    forall n: bv12 | n != num
      ensures GetCsr(m', n) == GetCsr(m, n)
    {
      SetThenGet(m, num, n, now);
    }
  }

  lemma WriteLeavesCsrs(m: Machine, rd: bv5, v: bv32, pc: bv32)
    ensures forall n: bv12 :: GetCsr(WriteReg(m, rd, v).(pc := pc), n) == GetCsr(m, n)
    ensures WriteReg(m, rd, v).(pc := pc) == WriteReg(m.(pc := pc), rd, v)
    ensures WriteReg(m, rd, v).csrs == m.csrs
  {
  }

  /** Enabling interrupts: `csrrs x0, mstatus, rs1` with bit 3 set in the register. */
  lemma EnablingInterrupts(o: Oracle, m: Machine, rs1: bv5)
    requires BitAt(ReadReg(m, rs1), 3)
    ensures InterruptsEnabled(Execute32(o, m, EncodeCsr(2, 0, rs1, 0x300)).m)
  {
    hide Execute32, EncodeCsr, ReadReg, BitAt, GetCsr, WriteReg, MieSet;
    CsrInstruction(o, m, 2, 0, rs1, 0x300);
    MieBit(GetCsr(Execute32(o, m, EncodeCsr(2, 0, rs1, 0x300)).m, 0x300));
  }

  // ---- Interrupt entry and return, bit by bit ----

  /** On entry MIE is cleared, MPIE takes its old value and every other bit stays. */
  lemma EntryBits(mstatus: bv32, k: nat)
    ensures BitAt(Entered(mstatus), k) <==>
            if k == 3 then false else if k == 7 then BitAt(mstatus, 3) else BitAt(mstatus, k)
  {
    EnteredForm(mstatus);
    hide BitAt, Entered, Or, And, Not, MieSet;
    MieBit(mstatus);
    MaskBits(k);
    var cleared := And(mstatus, Not(0x88));
    BitwiseBits(mstatus, 0x88, k);
    BitwiseBits(cleared, 0x80, k);
  }

  lemma EnteredForm(x: bv32)
    ensures Entered(x) == if MieSet(x) then Or(And(x, Not(0x88)), 0x80) else And(x, Not(0x88))
  {
    hide And, Not, MieSet;
    BothMasks();
    hide Or;
  }

  lemma BothMasks()
    ensures Or(0x8, 0x80) == 0x88
  {
  }

  /** On return MIE takes the value of MPIE, MPIE is set and every other bit stays. */
  lemma ReturnBits(mstatus: bv32, k: nat)
    ensures BitAt(Returned(mstatus), k) <==>
            if k == 3 then BitAt(mstatus, 7) else if k == 7 then true else BitAt(mstatus, k)
  {
    ReturnedForm(mstatus);
    hide BitAt, Returned, Or, And, Not, MpieSet;
    MieBit(mstatus);
    MaskBits(k);
    var kept := And(mstatus, Not(0x8));
    BitwiseBits(mstatus, 0x8, k);
    BitwiseBits(kept, 0x80, k);
    BitwiseBits(Or(kept, 0x80), 0x8, k);
  }

  lemma ReturnedForm(x: bv32)
    ensures var enabled := Or(And(x, Not(0x8)), 0x80);
            Returned(x) == if MpieSet(x) then Or(enabled, 0x8) else enabled
  {
    hide And, Or, Not, MpieSet;
  }

  lemma MaskBits(k: nat)
    ensures BitAt(0x8, k) <==> k == 3
    ensures BitAt(0x80, k) <==> k == 7
    ensures BitAt(0x88, k) <==> k == 3 || k == 7
  {
    hide FromNat, BitAt;
    Literal(8, 8);
    Literal(0x80, 0x80);
    Literal(0x88, 0x88);
    BitsOfNat(8, k);
    BitsOfNat(0x80, k);
    BitsOfNat(0x88, k);
    SmallQuotients(k);
  }

  lemma Literal(n: nat, x: bv32)
    requires n < WORD && Value(x) == n
    ensures FromNat(n) == x
  {
    hide FromNat, Value;
    FromNatValue(n);
    ValueIsInjective(FromNat(n), x);
  }

  lemma SmallQuotients(k: nat)
    ensures 8 / Pow2(k) % 2 == 1 <==> k == 3
    ensures 0x80 / Pow2(k) % 2 == 1 <==> k == 7
    ensures 0x88 / Pow2(k) % 2 == 1 <==> k == 3 || k == 7
  {
    Powers();
    if k >= 8 {
      PowGrows(k);
      BelowDivisor(8, Pow2(k));
      BelowDivisor(0x80, Pow2(k));
      BelowDivisor(0x88, Pow2(k));
    } else if k == 0 || k == 1 {
    } else if k == 2 || k == 3 {
    } else if k == 4 || k == 5 {
    } else {
    }
  }

  lemma BelowDivisor(n: nat, p: nat)
    requires n < p
    ensures n / p == 0
  {
    DivUnique(n, p, 0, n);
  }

  lemma Powers()
    ensures Pow2(0) == 1 && Pow2(1) == 2 && Pow2(2) == 4 && Pow2(3) == 8
    ensures Pow2(4) == 16 && Pow2(5) == 32 && Pow2(6) == 64 && Pow2(7) == 128 && Pow2(8) == 256
  {
  }

  lemma {:induction false} PowGrows(k: nat)
    requires k >= 8
    ensures Pow2(k) >= 256
    decreases k
  {
    if k == 8 {
      Powers();
    } else {
      PowGrows(k - 1);
    }
  }

  lemma MieBit(x: bv32)
    ensures MieSet(x) <==> BitAt(x, 3)
    ensures MpieSet(x) <==> BitAt(x, 7)
  {
    FirstBits(x);
    RawMieBit(x);
    hide BitAt, MieSet, MpieSet;
  }

  lemma FirstBits(x: bv32)
    ensures BitAt(x, 3) <==> IsOdd(Halve(Halve(Halve(x))))
    ensures BitAt(x, 7) <==> IsOdd(Halve(Halve(Halve(Halve(Halve(Halve(Halve(x))))))))
  {
    hide Halve, IsOdd;
    var x3 := Halve(Halve(Halve(x)));
    assert BitAt(x, 3) == BitAt(Halve(x), 2) == BitAt(Halve(Halve(x)), 1) == BitAt(x3, 0);
    assert BitAt(x, 7) == BitAt(Halve(x), 6) == BitAt(Halve(Halve(x)), 5) == BitAt(x3, 4) == BitAt(Halve(x3), 3);
    var x4 := Halve(x3);
    assert BitAt(x4, 3) == BitAt(Halve(x4), 2) == BitAt(Halve(Halve(x4)), 1) == BitAt(Halve(Halve(Halve(x4))), 0);
  }

  lemma RawMieBit(x: bv32)
    ensures MieSet(x) <==> IsOdd(Halve(Halve(Halve(x))))
    ensures MpieSet(x) <==> IsOdd(Halve(Halve(Halve(Halve(Halve(Halve(Halve(x))))))))
  {
  }
}
