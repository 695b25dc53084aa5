/**
 * Which 32-bit encodings the executor rejects, and with which error. The tables are
 * those of the RISC-V Unprivileged ISA, version 20191213, chapter 24, as far as the
 * emulator implements them.
 */
module Legality {
  import opened Bits
  import opened HostImports
  import opened Instructions
  import opened Machine
  import opened Formats
  import opened Syscalls

  /** An encoding outside SYSTEM and floating-point arithmetic that names an instruction. */
  predicate IsInstruction(d: Inst32) {
    if d.opcode in {OP_LUI, OP_AUIPC, OP_JAL, OP_JALR, OP_IMM, OP_MISC_MEM} then true
    else if d.opcode == OP_BRANCH then d.funct3 in {0, 1, 4, 5, 6, 7}
    else if d.opcode == OP_LOAD then d.funct3 in {0, 1, 2, 4, 5}
    else if d.opcode == OP_STORE then d.funct3 in {0, 1, 2}
    else if d.opcode == OP_OP then d.funct7 == 0 || d.funct7 == 1 || (d.funct7 == 0x20 && d.funct3 in {0, 5})
    else if d.opcode == OP_LOAD_FP || d.opcode == OP_STORE_FP then d.funct3 in {2, 3}
    else if d.opcode == OP_AMO then d.funct7 >> 2 in {0x00, 0x01, 0x02, 0x03, 0x04, 0x08, 0x0C, 0x10, 0x14, 0x18, 0x1C}
    else false
  }

  predicate IsArithmetic(opcode: bv7) { opcode in {OP_MADD, OP_MSUB, OP_NMSUB, OP_NMADD, OP_OP_FP} }

  /** Opcodes the executor knows. */
  predicate IsKnownOpcode(opcode: bv7) {
    || opcode in {OP_LUI, OP_AUIPC, OP_JAL, OP_JALR, OP_BRANCH, OP_LOAD, OP_STORE, OP_IMM, OP_OP, OP_MISC_MEM}
    || opcode in {OP_AMO, OP_LOAD_FP, OP_STORE_FP, OP_SYSTEM} || IsArithmetic(opcode)
  }

  /** The arm faults exactly if `bad`, and then with `e`. */
  predicate FaultsWith(arm: Arm, bad: bool, e: CpuError) {
    if bad then arm.Fault? && arm.error == e else arm.Done?
  }

  function IllegalAt(m: Machine, d: Inst32): CpuError { IllegalInstruction(m.pc, d.raw) }

  lemma IntegerArms(o: Oracle, m: Machine, d: Inst32, next: bv32)
    ensures FaultsWith(ExecBranch(m, d, next), d.funct3 == 2 || d.funct3 == 3, IllegalAt(m, d))
    ensures FaultsWith(ExecLoad(o, m, d, next), d.funct3 == 3 || d.funct3 == 6 || d.funct3 == 7, IllegalAt(m, d))
    ensures FaultsWith(ExecStore(m, d, next), d.funct3 != 0 && d.funct3 != 1 && d.funct3 != 2, IllegalAt(m, d))
  {
    hide Get8, Get16, Get32, Put8, Put16, Put32, ReadReg, WriteReg, Compare, Target, Address, IImm, SImm, BImm;
    hide LowByte, LowHalf, SignExtend8, SignExtend16, ZeroExtend8, ZeroExtend16;
  }

  lemma OtherArms(o: Oracle, m: Machine, d: Inst32, next: bv32)
    ensures FaultsWith(ExecOp(m, d, next),
            !(d.funct7 == 0 || (d.funct7 == 0x20 && (d.funct3 == 0 || d.funct3 == 5))), IllegalAt(m, d))
    ensures FaultsWith(ExecLoadFp(o, m, d, next), d.funct3 != 2 && d.funct3 != 3, IllegalAt(m, d))
    ensures FaultsWith(ExecStoreFp(m, d, next), d.funct3 != 2 && d.funct3 != 3, IllegalAt(m, d))
    ensures FaultsWith(ExecAmo(o, m, d, next), !IsAmo(d.funct7 >> 2), IllegalAt(m, d))
  {
    hide Get32, GetDouble, Put32, PutDouble, ReadReg, WriteReg, ReadFreg, SetFreg, WriteF64, Boxed, LowWord;
    hide Address, IImm, SImm, OpResult, AmoValue, IsAmo;
  }

  lemma OtherFunct3(f: bv3)
    ensures f in {0, 1, 4, 5, 6, 7} <==> !(f == 2 || f == 3)
    ensures f in {0, 1, 2, 4, 5} <==> !(f == 3 || f == 6 || f == 7)
    ensures f in {0, 1, 2} <==> !(f != 0 && f != 1 && f != 2)
  {
  }

  /**
   * Outside SYSTEM and floating-point arithmetic, the executor faults exactly on
   * the encodings that name no instruction: as an illegal instruction where it
   * knows the opcode, as an unknown opcode where it does not.
   */
  lemma FaultsExactly(o: Oracle, m: Machine, raw: bv32)
    requires Decode(raw).opcode != OP_SYSTEM && !IsArithmetic(Decode(raw).opcode)
    ensures var d, r := Decode(raw), Execute32(o, m, raw);
            && (r.Err? <==> !IsInstruction(d))
            && (r.Err? ==> r.error == if IsKnownOpcode(d.opcode) then IllegalInstruction(m.pc, raw)
               else UnknownOpcode(m.pc, d.opcode))
  {
    hide Decode, Dispatch, Plus, IsInstruction, IsKnownOpcode, IsArithmetic;
    DecodeKeepsRaw(raw);
    DispatchFaults(o, m, Decode(raw), Plus(m.pc, 4));
  }

  lemma DispatchFaults(o: Oracle, m: Machine, d: Inst32, next: bv32)
    requires d.opcode != OP_SYSTEM && !IsArithmetic(d.opcode)
    ensures FaultsWith(Dispatch(o, m, d, next), !IsInstruction(d),
                       if IsKnownOpcode(d.opcode) then IllegalAt(m, d) else UnknownOpcode(m.pc, d.opcode))
  {
    hide Dispatch, ExecOp, ExecMulDiv, ExecUpper, ExecBranch, ExecLoad, ExecStore, ExecOpImm, ExecLoadFp;
    hide ExecStoreFp, ExecAmo, IsArithmetic;
    IntegerArms(o, m, d, next);
    OtherArms(o, m, d, next);
    OtherFunct3(d.funct3);
    PlainArms(m, d, next);
    if d.opcode == OP_BRANCH {
      RouteBranch(o, m, d, next);
    } else if d.opcode == OP_LOAD {
      RouteLoad(o, m, d, next);
    } else if d.opcode == OP_STORE {
      RouteStore(o, m, d, next);
    } else if d.opcode == OP_OP {
      if d.funct7 == 1 {
        RouteMulDiv(o, m, d, next);
      } else {
        RouteOp(o, m, d, next);
      }
    } else if d.opcode == OP_LOAD_FP {
      RouteLoadFp(o, m, d, next);
    } else if d.opcode == OP_STORE_FP {
      RouteStoreFp(o, m, d, next);
    } else if d.opcode == OP_AMO {
      RouteAmo(o, m, d, next);
      SameAtomics(d.funct7 >> 2);
    } else if d.opcode == OP_IMM {
      RouteOpImm(o, m, d, next);
    } else if d.opcode == OP_MISC_MEM {
      FenceMeans(o, m, d, next);
    } else if d.opcode == OP_LUI || d.opcode == OP_AUIPC || d.opcode == OP_JAL || d.opcode == OP_JALR {
      RouteUpper(o, m, d, next);
    } else {
      RouteUnknown(o, m, d, next);
    }
  }

  lemma SameAtomics(f: bv7)
    ensures IsAmo(f) <==> f in {0x00, 0x01, 0x02, 0x03, 0x04, 0x08, 0x0C, 0x10, 0x14, 0x18, 0x1C}
  {
  }

  lemma RouteUnknown(o: Oracle, m: Machine, d: Inst32, next: bv32)
    requires !IsKnownOpcode(d.opcode)
    ensures Dispatch(o, m, d, next) == Fault(m, UnknownOpcode(m.pc, d.opcode))
  {
    hide ExecOp, ExecMulDiv, ExecUpper, ExecBranch, ExecLoad, ExecStore, ExecOpImm, ExecLoadFp;
    hide ExecStoreFp, ExecSystem, ExecAmo, ExecFpu;
  }

  lemma PlainArms(m: Machine, d: Inst32, next: bv32)
    ensures ExecUpper(m, d, next).Done? && ExecOpImm(m, d, next).Done? && ExecMulDiv(m, d, next).Done?
  {
    hide ReadReg, WriteReg, ImmResult, MulDiv, Target, Address, Even, IImm, UImm, JImm;
  }

  /** SYSTEM faults exactly on an ECALL with a number nobody implements. */
  lemma SystemFaultsExactly(o: Oracle, m: Machine, raw: bv32)
    requires Decode(raw).opcode == OP_SYSTEM
    ensures Execute32(o, m, raw).Err? <==>
            Decode(raw).funct3 == 0 && CsrNumber(raw) == 0 && IsBuiltIn(o, m) && !IsKnown(m.regs[17])
  {
    hide Decode, Dispatch, Plus, CsrNumber, IsBuiltIn, IsKnown, ExecEcall, ExecMret, ExecCsr;
    DecodeKeepsRaw(raw);
    RouteSystem(o, m, Decode(raw), Plus(m.pc, 4));
    CsrArmsDone(m, Decode(raw), Plus(m.pc, 4));
    EcallFaultsExactly(o, m, Plus(m.pc, 4));
  }

  /** The other SYSTEM instructions without operands: EBREAK halts, and any but ECALL, EBREAK and MRET do nothing. */
  lemma SystemWithoutOperands(o: Oracle, m: Machine, raw: bv32)
    requires Decode(raw).opcode == OP_SYSTEM && Decode(raw).funct3 == 0
    requires CsrNumber(raw) != 0 && CsrNumber(raw) != 0x302
    ensures Execute32(o, m, raw) == Ok(m.(pc := Plus(m.pc, 4), halted := m.halted || CsrNumber(raw) == 1))
  {
    hide Decode, Dispatch, Plus, CsrNumber, ExecEcall, ExecMret, ExecCsr;
    DecodeKeepsRaw(raw);
    RouteSystem(o, m, Decode(raw), Plus(m.pc, 4));
  }

  lemma CsrArmsDone(m: Machine, d: Inst32, next: bv32)
    ensures ExecCsr(m, d, next).Done? && ExecMret(m, next).Done?
  {
    hide GetCsr, SetCsr, CsrResult, WriteReg, ReadReg;
  }

  lemma EcallFaultsExactly(o: Oracle, m: Machine, next: bv32)
    ensures ExecEcall(o, m, next).Fault? <==> IsBuiltIn(o, m) && !IsKnown(m.regs[17])
  {
    hide SysWrite, SysRead, SysBrk, WriteReg, Record;
    ArgsAreRegisters(m);
    hide Args;
  }

  /** Floating-point arithmetic is the host's, on the registers the encoding names. */
  lemma ArithmeticIsTheHosts(o: Oracle, m: Machine, opcode: bv7, rd: bv5, funct3: bv3, rs1: bv5, rs2: bv5,
                             funct7: bv7, rs3: bv5)
    requires IsArithmetic(opcode) && rs3 == (funct7 >> 2) as bv5
    ensures var raw := EncodeR(opcode, rd, funct3, rs1, rs2, funct7);
            var f := m.fregs;
            Execute32(o, m, raw) ==
            match o.fpu(FpOperands(raw, ReadReg(m, rs1), f[rs1 as int], f[rs2 as int], f[rs3 as int]))
            case FpIllegal => Err(m, IllegalInstruction(m.pc, raw))
            case FpNothing => Ok(m.(pc := Plus(m.pc, 4)))
            case FpToInteger(x) => Ok(WriteReg(m, rd, x).(pc := Plus(m.pc, 4)))
            case FpToFloat(x) => Ok(m.(fregs := f[rd as int := x], pc := Plus(m.pc, 4)))
  {
    hide Decode, Dispatch, EncodeR, ReadReg, WriteReg, Plus, IsArithmetic;
    DecodeR(opcode, rd, funct3, rs1, rs2, funct7);
    DecodeRs3(opcode, rd, funct3, rs1, rs2, funct7);
    RouteFpu(o, m, Decode(EncodeR(opcode, rd, funct3, rs1, rs2, funct7)), Plus(m.pc, 4));
  }

  lemma DecodeRs3(opcode: bv7, rd: bv5, funct3: bv3, rs1: bv5, rs2: bv5, funct7: bv7)
    ensures Decode(EncodeR(opcode, rd, funct3, rs1, rs2, funct7)).rs3 == (funct7 >> 2) as bv5
  {
  }

  lemma RouteFpu(o: Oracle, m: Machine, d: Inst32, next: bv32)
    requires IsArithmetic(d.opcode)
    ensures Dispatch(o, m, d, next) == ExecFpu(o, m, d, next)
  {
    hide ExecOp, ExecMulDiv, ExecUpper, ExecBranch, ExecLoad, ExecStore, ExecOpImm, ExecLoadFp;
    hide ExecStoreFp, ExecSystem, ExecAmo, ExecFpu;
  }
}
