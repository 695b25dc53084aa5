/**
 * The disassembler, rendering into a datatype instead of text, and its agreement
 * with the executors: the rendered instruction means what the executor does, and
 * a printed target is where a taken jump or branch goes.
 */
module Disassembler {
  import opened Bits
  import opened HostImports
  import opened Instructions
  import opened Machine
  import opened Compressed
  import opened Formats
  import E = Expansion

  datatype Kind = Word | Single | Double
  datatype Shift = Srli | Srai
  datatype Arith = Sub | Xor | Or | And

  /** A rendered 16-bit instruction: mnemonic and operands, targets as absolute addresses. */
  datatype Asm =
    | CReserved(raw: bv16)
    | CAddi4spn(rd: bv5, imm: bv32)
    | CLoad(kind: Kind, rd: bv5, offset: bv32, rs1: bv5)
    | CStore(kind: Kind, rs2: bv5, offset: bv32, rs1: bv5)
    | CNop
    | CAddi(rd: bv5, imm: bv32)
    | CJal(target: bv32)
    | CLi(rd: bv5, imm: bv32)
    | CAddi16sp(imm: bv32)
    | CLui(rd: bv5, imm: bv32)
    | CShift(shift: Shift, rd: bv5, shamt: bv5)
    | CAndi(rd: bv5, imm: bv32)
    | CArith(arith: Arith, rd: bv5, rs2: bv5)
    | CJ(target: bv32)
    | CBeqz(rs1: bv5, target: bv32)
    | CBnez(rs1: bv5, target: bv32)
    | CSlli(rd: bv5, shamt: bv5)
    | CLoadSp(kind: Kind, rd: bv5, offset: bv32)
    | CStoreSp(kind: Kind, rs2: bv5, offset: bv32)
    | CJr(rs1: bv5)
    | CMv(rd: bv5, rs2: bv5)
    | CEbreak
    | CJalr(rs1: bv5)
    | CAdd(rd: bv5, rs2: bv5)

  /** `format_target_rvc`: the disassembler has its own copy of the jump offset. */
  function JumpTarget(address: bv32, inst: bv16): bv32 {
    var imm11 := (Field(inst, 12, 1) << 11) | (Field(inst, 8, 1) << 10) | (Field(inst, 9, 3) << 8)
                 | (Field(inst, 6, 1) << 7) | (Field(inst, 7, 1) << 6) | (Field(inst, 2, 1) << 5)
                 | (Field(inst, 11, 1) << 4) | (Field(inst, 3, 7) << 1);
    Plus(address, SignExtend16(Sra16(imm11 << 4, 4)))
  }

  /** `format_branch_target_rvc`. */
  function BranchTarget(address: bv32, inst: bv16): bv32 {
    var imm := (Field(inst, 12, 1) << 8) | (Field(inst, 5, 3) << 6) | (Field(inst, 2, 1) << 5)
               | (Field(inst, 10, 3) << 3) | (Field(inst, 3, 3) << 1);
    Plus(address, SignExtend16(Sra16(imm << 7, 7)))
  }

  function RenderQuadrant0(inst: bv16): Asm {
    var f := Funct3(inst);
    var low, high := Creg(inst, 2), Creg(inst, 7);
    if f == 0 then
      if Addi4spnImm(inst) == 0 then CReserved(inst) else CAddi4spn(low, Addi4spnImm(inst))
    else if f == 1 then CLoad(Double, low, ClDoubleOffset(inst), high)
    else if f == 2 then CLoad(Word, low, ClWordOffset(inst), high)
    else if f == 3 then CLoad(Single, low, ClWordOffset(inst), high)
    else if f == 5 then CStore(Double, low, ClDoubleOffset(inst), high)
    else if f == 6 then CStore(Word, low, ClWordOffset(inst), high)
    else if f == 7 then CStore(Single, low, ClWordOffset(inst), high)
    else CReserved(inst)
  }

  function RenderLui(inst: bv16): Asm {
    var rd := Reg(inst, 7);
    if rd == 2 then
      if Addi16spImm(inst) == 0 then CReserved(inst) else CAddi16sp(Addi16spExtended(inst))
    else if rd == 0 || Imm6(inst) == 0 then CReserved(inst)
    else CLui(rd, Imm6Extended(inst))
  }

  function RenderArithmetic(inst: bv16): Asm {
    var rd := Creg(inst, 7);
    var bit12 := Field(inst, 12, 1);
    var kind := Field(inst, 10, 0x3);
    if kind == 0 || kind == 1 then
      if bit12 != 0 then CReserved(inst) else CShift(if kind == 0 then Srli else Srai, rd, Shamt(inst))
    else if kind == 2 then CAndi(rd, Imm6Extended(inst))
    else if bit12 != 0 then CReserved(inst)
    else
      var which := Field(inst, 5, 0x3);
      CArith(if which == 0 then Sub else if which == 1 then Arith.Xor else if which == 2 then Arith.Or
        else Arith.And, rd, Creg(inst, 2))
  }

  function RenderQuadrant1(address: bv32, inst: bv16): Asm {
    var f := Funct3(inst);
    var rd := Reg(inst, 7);
    if f == 0 then if rd == 0 then CNop else CAddi(rd, Imm6Extended(inst))
    else if f == 1 then CJal(JumpTarget(address, inst))
    else if f == 2 then CLi(rd, Imm6Extended(inst))
    else if f == 3 then RenderLui(inst)
    else if f == 4 then RenderArithmetic(inst)
    else if f == 5 then CJ(JumpTarget(address, inst))
    else if f == 6 then CBeqz(Creg(inst, 7), BranchTarget(address, inst))
    else CBnez(Creg(inst, 7), BranchTarget(address, inst))
  }

  function RenderJump(inst: bv16): Asm {
    var rd, rs2 := Reg(inst, 7), Reg(inst, 2);
    var bit12 := Field(inst, 12, 1);
    if bit12 == 0 && rs2 == 0 then if rd == 0 then CReserved(inst) else CJr(rd)
    else if bit12 == 0 then CMv(rd, rs2)
    else if rd == 0 && rs2 == 0 then CEbreak
    else if rs2 == 0 then CJalr(rd)
    else CAdd(rd, rs2)
  }

  function RenderQuadrant2(inst: bv16): Asm {
    var f := Funct3(inst);
    var rd, rs2 := Reg(inst, 7), Reg(inst, 2);
    if f == 0 then if Field(inst, 12, 1) != 0 then CReserved(inst) else CSlli(rd, Shamt(inst))
    else if f == 1 then CLoadSp(Double, rd, CiDoubleSpOffset(inst))
    else if f == 2 then if rd == 0 then CReserved(inst) else CLoadSp(Word, rd, CiWordSpOffset(inst))
    else if f == 3 then CLoadSp(Single, rd, CiWordSpOffset(inst))
    else if f == 4 then RenderJump(inst)
    else if f == 5 then CStoreSp(Double, rs2, CssDoubleSpOffset(inst))
    else if f == 6 then CStoreSp(Word, rs2, CssWordSpOffset(inst))
    else CStoreSp(Single, rs2, CssWordSpOffset(inst))
  }

  /** `decode_rvc`. */
  function DecodeRvc(address: bv32, inst: bv16): Asm {
    if Op(inst) == 0 then RenderQuadrant0(inst)
    else if Op(inst) == 1 then RenderQuadrant1(address, inst)
    else if Op(inst) == 2 then RenderQuadrant2(inst)
    else CReserved(inst)
  }

  // ---- What a reader takes the rendered text to mean ----

  function MeaningOfLoad(o: Oracle, m: Machine, kind: Kind, rd: bv5, addr: bv32, next: bv32): Arm {
    match kind
    case Word => (var r := Get32(o, m, addr); Done(WriteReg(r.m, rd, r.val), next))
    case Single => (var r := Get32(o, m, addr); Done(SetFreg(r.m, rd, Boxed(r.val)), next))
    case Double => (var r := GetDouble(o, m, addr); Done(WriteF64(r.m, rd, r.val), next))
  }

  function MeaningOfStore(m: Machine, kind: Kind, rs2: bv5, addr: bv32, next: bv32): Arm {
    match kind
    case Word => Done(Put32(m, addr, ReadReg(m, rs2)), next)
    case Single => Done(Put32(m, addr, LowWord(ReadFreg(m, rs2))), next)
    case Double => Done(PutDouble(m, addr, ReadFreg(m, rs2)), next)
  }

  function MeaningOfArith(arith: Arith, a: bv32, b: bv32): bv32 {
    match arith
    case Sub => Bits.Minus(a, b)
    case Xor => Bits.Xor(a, b)
    case Or => Bits.Or(a, b)
    case And => Bits.And(a, b)
  }

  /** Plain assembly semantics, with no reference to encodings. */
  function Meaning(o: Oracle, m: Machine, asm: Asm, next: bv32): Arm {
    match asm
    case CReserved(raw) => Reserved(m, raw)
    case CAddi4spn(rd, imm) => Done(WriteReg(m, rd, Address(m, 2, imm)), next)
    case CLoad(kind, rd, offset, rs1) => MeaningOfLoad(o, m, kind, rd, Address(m, rs1, offset), next)
    case CStore(kind, rs2, offset, rs1) => MeaningOfStore(m, kind, rs2, Address(m, rs1, offset), next)
    case CNop => Done(m, next)
    case CAddi(rd, imm) => Done(WriteReg(m, rd, Address(m, rd, imm)), next)
    case CJal(target) => Done(WriteReg(m, 1, next), target)
    case CLi(rd, imm) => Done(WriteReg(m, rd, imm), next)
    case CAddi16sp(imm) => Done(WriteReg(m, 2, Address(m, 2, imm)), next)
    case CLui(rd, imm) => Done(WriteReg(m, rd, Shl(imm, 12)), next)
    case CShift(shift, rd, shamt) =>
      var x := ReadReg(m, rd);
      Done(WriteReg(m, rd, if shift == Srli then Shr(x, shamt) else Sra(x, shamt)), next)
    case CAndi(rd, imm) => Done(WriteReg(m, rd, Bits.And(ReadReg(m, rd), imm)), next)
    case CArith(arith, rd, rs2) => Done(WriteReg(m, rd, MeaningOfArith(arith, ReadReg(m, rd), ReadReg(m, rs2))), next)
    case CJ(target) => Done(m, target)
    case CBeqz(rs1, target) => Done(m, if ReadReg(m, rs1) == 0 then target else next)
    case CBnez(rs1, target) => Done(m, if ReadReg(m, rs1) != 0 then target else next)
    case CSlli(rd, shamt) => Done(WriteReg(m, rd, Shl(ReadReg(m, rd), shamt)), next)
    case CLoadSp(kind, rd, offset) => MeaningOfLoad(o, m, kind, rd, Address(m, 2, offset), next)
    case CStoreSp(kind, rs2, offset) => MeaningOfStore(m, kind, rs2, Address(m, 2, offset), next)
    case CJr(rs1) => Done(m, Even(ReadReg(m, rs1)))
    case CMv(rd, rs2) => Done(WriteReg(m, rd, ReadReg(m, rs2)), next)
    case CEbreak => Done(m.(halted := true), next)
    case CJalr(rs1) => Done(WriteReg(m, 1, next), Even(ReadReg(m, rs1)))
    case CAdd(rd, rs2) => Done(WriteReg(m, rd, Plus(ReadReg(m, rd), ReadReg(m, rs2))), next)
  }

  // ---- Agreement ----

  lemma OffsetCopiesAgree(m: Machine, inst: bv16)
    ensures JumpTarget(m.pc, inst) == Target(m, CjOffset(inst))
    ensures BranchTarget(m.pc, inst) == Target(m, CbOffset(inst))
  {
    hide Plus, SignExtend16, Sra16, Field;
  }

  lemma Quadrant0Agrees(o: Oracle, m: Machine, inst: bv16, next: bv32)
    ensures Quadrant0(o, m, inst, next) == Meaning(o, m, RenderQuadrant0(inst), next)
  {
    hide Funct3, Creg, Addi4spnImm, ClWordOffset, ClDoubleOffset, ReadReg, WriteReg, ReadFreg, SetFreg;
    hide WriteF64, Boxed, LowWord, Address;
    hide Get32, GetDouble, Put32, PutDouble, Reserved;
  }

  lemma LuiAgrees(o: Oracle, m: Machine, inst: bv16, next: bv32)
    ensures ExecLuiGroup(m, inst, next) == Meaning(o, m, RenderLui(inst), next)
  {
    hide Reg, Imm6, Imm6Extended, Addi16spImm, Addi16spExtended, ReadReg, WriteReg, Address, Shl, Reserved;
  }

  lemma ShiftAgrees(o: Oracle, m: Machine, inst: bv16, next: bv32)
    requires Field(inst, 10, 0x3) == 0 || Field(inst, 10, 0x3) == 1
    ensures ExecArithmeticGroup(m, inst, next) == Meaning(o, m, RenderArithmetic(inst), next)
  {
    hide Creg, Field, Shamt, Imm6Extended, ReadReg, WriteReg, Reserved, Bits.Minus, Bits.Xor, Bits.Or;
    hide Bits.And, Shr, Sra;
    var rd := Creg(inst, 7);
    E.WriteBack(m, rd);
    E.ShiftByZero(ReadReg(m, rd));
  }

  lemma LogicAgrees(o: Oracle, m: Machine, inst: bv16, next: bv32)
    requires Field(inst, 10, 0x3) != 0 && Field(inst, 10, 0x3) != 1
    ensures ExecArithmeticGroup(m, inst, next) == Meaning(o, m, RenderArithmetic(inst), next)
  {
    hide Creg, Field, Shamt, Imm6Extended, ReadReg, WriteReg, Reserved, Bits.Minus, Bits.Xor, Bits.Or;
    hide Bits.And, Shr, Sra;
  }

  lemma AddiAgrees(o: Oracle, m: Machine, inst: bv16, next: bv32)
    requires Funct3(inst) == 0 || Funct3(inst) == 2
    ensures Quadrant1(m, inst, next) == Meaning(o, m, RenderQuadrant1(m.pc, inst), next)
  {
    hide Funct3, Reg, Creg, Imm6Extended, CjOffset, CbOffset, Plus, ReadReg, WriteReg;
    var rd := Reg(inst, 7);
    E.RegisterZero(m, 0);
    E.WriteBack(m, rd);
    E.AddZero(ReadReg(m, rd));
  }

  lemma JumpsAgree(o: Oracle, m: Machine, inst: bv16, next: bv32)
    requires Funct3(inst) == 1 || Funct3(inst) == 5
    ensures Quadrant1(m, inst, next) == Meaning(o, m, RenderQuadrant1(m.pc, inst), next)
  {
    hide Funct3, Reg, Creg, Imm6Extended, CjOffset, CbOffset, JumpTarget, BranchTarget, Target, Plus;
    hide ReadReg, WriteReg, ExecLuiGroup, ExecArithmeticGroup, RenderLui, RenderArithmetic;
    hide MeaningOfLoad, MeaningOfStore, MeaningOfArith, Address, Shl, Shr, Sra, Even, Bits.And;
    OffsetCopiesAgree(m, inst);
  }

  lemma BranchesAgree(o: Oracle, m: Machine, inst: bv16, next: bv32)
    requires Funct3(inst) == 6 || Funct3(inst) == 7
    ensures Quadrant1(m, inst, next) == Meaning(o, m, RenderQuadrant1(m.pc, inst), next)
  {
    hide Funct3, Reg, Creg, Imm6Extended, CjOffset, CbOffset, JumpTarget, BranchTarget, Target, Plus;
    hide ReadReg, WriteReg, ExecLuiGroup, ExecArithmeticGroup, RenderLui, RenderArithmetic;
    hide MeaningOfLoad, MeaningOfStore, MeaningOfArith, Address, Shl, Shr, Sra, Even, Bits.And;
    OffsetCopiesAgree(m, inst);
  }

  lemma GroupsAgree(o: Oracle, m: Machine, inst: bv16, next: bv32)
    requires Funct3(inst) == 3 || Funct3(inst) == 4
    ensures Quadrant1(m, inst, next) == Meaning(o, m, RenderQuadrant1(m.pc, inst), next)
  {
    hide Funct3, Reg, Creg, Field, ReadReg, WriteReg, Meaning, ExecLuiGroup, ExecArithmeticGroup;
    hide RenderLui, RenderArithmetic;
    LuiAgrees(o, m, inst, next);
    if Field(inst, 10, 0x3) == 0 || Field(inst, 10, 0x3) == 1 {
      ShiftAgrees(o, m, inst, next);
    } else {
      LogicAgrees(o, m, inst, next);
    }
  }

  lemma Quadrant1Agrees(o: Oracle, m: Machine, inst: bv16, next: bv32)
    ensures Quadrant1(m, inst, next) == Meaning(o, m, RenderQuadrant1(m.pc, inst), next)
  {
    hide Funct3, Quadrant1, RenderQuadrant1, Meaning;
    if Funct3(inst) == 0 || Funct3(inst) == 2 {
      AddiAgrees(o, m, inst, next);
    } else if Funct3(inst) == 3 || Funct3(inst) == 4 {
      GroupsAgree(o, m, inst, next);
    } else if Funct3(inst) == 1 || Funct3(inst) == 5 {
      JumpsAgree(o, m, inst, next);
    } else {
      OtherFunct3(Funct3(inst));
      BranchesAgree(o, m, inst, next);
    }
  }

  lemma OtherFunct3(f: bv3)
    requires f != 0 && f != 1 && f != 2 && f != 3 && f != 4 && f != 5
    ensures f == 6 || f == 7
  {
  }

  lemma MoveGroupAgrees(o: Oracle, m: Machine, inst: bv16, next: bv32)
    requires Field(inst, 12, 1) == 0
    ensures ExecJumpGroup(m, inst, next) == Meaning(o, m, RenderJump(inst), next)
  {
    hide Reg, Field, ReadReg, WriteReg, Plus, Even, Reserved;
    hide MeaningOfLoad, MeaningOfStore, MeaningOfArith, Address, Shl, Shr, Sra, Bits.And;
    E.RegisterZero(m, ReadReg(m, Reg(inst, 2)));
  }

  lemma AddGroupAgrees(o: Oracle, m: Machine, inst: bv16, next: bv32)
    requires Field(inst, 12, 1) != 0
    ensures ExecJumpGroup(m, inst, next) == Meaning(o, m, RenderJump(inst), next)
  {
    hide Reg, Field, ReadReg, WriteReg, Plus, Even, Reserved;
    hide MeaningOfLoad, MeaningOfStore, MeaningOfArith, Address, Shl, Shr, Sra, Bits.And;
    E.RegisterZero(m, Plus(ReadReg(m, Reg(inst, 7)), ReadReg(m, Reg(inst, 2))));
  }

  lemma JumpAgrees(o: Oracle, m: Machine, inst: bv16, next: bv32)
    ensures ExecJumpGroup(m, inst, next) == Meaning(o, m, RenderJump(inst), next)
  {
    hide ExecJumpGroup, Meaning, RenderJump, Field;
    if Field(inst, 12, 1) == 0 {
      MoveGroupAgrees(o, m, inst, next);
    } else {
      AddGroupAgrees(o, m, inst, next);
    }
  }

  lemma SlliAgrees(o: Oracle, m: Machine, inst: bv16, next: bv32)
    requires Funct3(inst) == 0
    ensures Quadrant2(o, m, inst, next) == Meaning(o, m, RenderQuadrant2(inst), next)
  {
    hide Funct3, Reg, Field, Shamt, ReadReg, WriteReg, Reserved, Shl;
    var rd := Reg(inst, 7);
    E.RegisterZero(m, Shl(ReadReg(m, rd), Shamt(inst)));
    E.WriteBack(m, rd);
    E.ShiftByZero(ReadReg(m, rd));
  }

  lemma StackLoadsAgree(o: Oracle, m: Machine, inst: bv16, next: bv32)
    requires Funct3(inst) == 1 || Funct3(inst) == 2 || Funct3(inst) == 3
    ensures Quadrant2(o, m, inst, next) == Meaning(o, m, RenderQuadrant2(inst), next)
  {
    hide Funct3, Reg, Field, Shamt, CiWordSpOffset, CiDoubleSpOffset, CssWordSpOffset, CssDoubleSpOffset;
    hide ExecJumpGroup, RenderJump, ReadReg, WriteReg, ReadFreg, SetFreg, WriteF64, Boxed, LowWord, Address;
    hide Get32, GetDouble, Put32, PutDouble, Reserved, Shl, MeaningOfArith, Shr, Sra, Even, Plus, Bits.And;
    hide MeaningOfStore;
  }

  lemma StackStoresAgree(o: Oracle, m: Machine, inst: bv16, next: bv32)
    requires Funct3(inst) != 0 && Funct3(inst) != 1 && Funct3(inst) != 2 && Funct3(inst) != 3 && Funct3(inst) != 4
    ensures Quadrant2(o, m, inst, next) == Meaning(o, m, RenderQuadrant2(inst), next)
  {
    hide Funct3, Reg, Field, Shamt, CiWordSpOffset, CiDoubleSpOffset, CssWordSpOffset, CssDoubleSpOffset;
    hide ExecJumpGroup, RenderJump, ReadReg, WriteReg, ReadFreg, SetFreg, WriteF64, Boxed, LowWord, Address;
    hide Get32, GetDouble, Put32, PutDouble, Reserved, Shl, MeaningOfArith, Shr, Sra, Even, Plus, Bits.And;
    hide MeaningOfLoad;
  }

  lemma Quadrant2Agrees(o: Oracle, m: Machine, inst: bv16, next: bv32)
    ensures Quadrant2(o, m, inst, next) == Meaning(o, m, RenderQuadrant2(inst), next)
  {
    hide Funct3, Reg, Field, ReadReg, WriteReg, Meaning, ExecJumpGroup, RenderJump;
    if Funct3(inst) == 0 {
      SlliAgrees(o, m, inst, next);
    } else if Funct3(inst) == 4 {
      JumpAgrees(o, m, inst, next);
    } else if Funct3(inst) == 1 || Funct3(inst) == 2 || Funct3(inst) == 3 {
      StackLoadsAgree(o, m, inst, next);
    } else {
      StackStoresAgree(o, m, inst, next);
    }
  }

  /** The rendered instruction means exactly what the executor does, for every halfword and machine. */
  lemma DisassemblyIsFaithful(o: Oracle, m: Machine, inst: bv16)
    ensures Execute16(o, m, inst) == Commit(Meaning(o, m, DecodeRvc(m.pc, inst), Plus(m.pc, 2)))
  {
    hide Op, Quadrant0, Quadrant1, Quadrant2, RenderQuadrant0, RenderQuadrant1, RenderQuadrant2;
    hide Meaning, Plus;
    var next := Plus(m.pc, 2);
    Quadrant0Agrees(o, m, inst, next);
    Quadrant1Agrees(o, m, inst, next);
    Quadrant2Agrees(o, m, inst, next);
    MeaningOfReserved(o, m, inst, next);
  }

  lemma MeaningOfReserved(o: Oracle, m: Machine, inst: bv16, next: bv32)
    ensures Meaning(o, m, CReserved(inst), next) == Reserved(m, inst)
  {
  }

  lemma OnlyReservedFaults(o: Oracle, m: Machine, asm: Asm, next: bv32)
    ensures Meaning(o, m, asm, next).Fault? <==> asm.CReserved?
  {
    hide ReadReg, WriteReg, ReadFreg, SetFreg, WriteF64, Boxed, LowWord, Address, Get32, GetDouble;
    hide Put32, PutDouble, Shl, Shr, Sra, Plus, Even;
    hide Bits.Minus, Bits.Xor, Bits.Or, Bits.And;
  }

  /**
   * A halfword is rendered as reserved exactly when the executor rejects it, and it
   * rejects it in every state or in none.
   */
  lemma ReservedExactlyWhenRejected(o: Oracle, m: Machine, address: bv32, inst: bv16)
    ensures DecodeRvc(address, inst).CReserved? <==> Execute16(o, m, inst).Err?
  {
    hide DecodeRvc, Execute16, Meaning, Plus;
    DisassemblyIsFaithful(o, m, inst);
    OnlyReservedFaults(o, m, DecodeRvc(m.pc, inst), Plus(m.pc, 2));
    ReservedAnywhere(address, m.pc, inst);
  }

  lemma ReservedAnywhere(a: bv32, b: bv32, inst: bv16)
    ensures DecodeRvc(a, inst).CReserved? <==> DecodeRvc(b, inst).CReserved?
  {
    hide Op, Funct3, Creg, Reg, JumpTarget, BranchTarget, RenderQuadrant0, RenderQuadrant2, RenderLui;
    hide RenderArithmetic;
  }

  // ---- 32-bit jumps and branches ----

  datatype Cond = Eq | Ne | Lt | Ge | Ltu | Geu | UnknownBranch

  datatype Asm32 =
    | Jal(rd: bv5, target: bv32)
    | Branch(cond: Cond, rs1: bv5, rs2: bv5, target: bv32)
    | Elsewhere

  /** The jump and branch arms of `decode_rv32`. */
  function DecodeRv32(address: bv32, raw: bv32): Asm32 {
    var d := Decode(raw);
    if d.opcode == OP_JAL then Jal(d.rd, Plus(address, JImm(raw)))
    else if d.opcode == OP_BRANCH then
      Branch(Condition(d.funct3), d.rs1, d.rs2, Plus(address, BImm(raw)))
    else Elsewhere
  }

  function Condition(funct3: bv3): Cond {
    if funct3 == 0 then Eq
    else if funct3 == 1 then Ne
    else if funct3 == 4 then Lt
    else if funct3 == 5 then Ge
    else if funct3 == 6 then Ltu
    else if funct3 == 7 then Geu
    else UnknownBranch
  }

  predicate Holds(cond: Cond, a: bv32, b: bv32)
    requires !cond.UnknownBranch?
  {
    match cond
    case Eq => a == b
    case Ne => a != b
    case Lt => SignedLess(a, b)
    case Ge => !SignedLess(a, b)
    case Ltu => a < b
    case Geu => a >= b
  }

  /** The printed condition is the one the executor evaluates. */
  lemma ConditionMeans(funct3: bv3, a: bv32, b: bv32)
    ensures Condition(funct3).UnknownBranch? <==> funct3 == 2 || funct3 == 3
    ensures !Condition(funct3).UnknownBranch? ==> (Holds(Condition(funct3), a, b) <==> Compare(funct3, a, b))
  {
    hide SignedLess;
  }

  /** A printed jump goes to the printed target and links the next address. */
  lemma JumpGoesToTarget(o: Oracle, m: Machine, raw: bv32)
    requires DecodeRv32(m.pc, raw).Jal?
    ensures var asm := DecodeRv32(m.pc, raw);
            Execute32(o, m, raw) == Ok(WriteReg(m, asm.rd, Plus(m.pc, 4)).(pc := asm.target))
  {
    hide Decode, Dispatch, WriteReg, JImm, BImm, Plus;
    DecodeKeepsRaw(raw);
    RouteUpper(o, m, Decode(raw), Plus(m.pc, 4));
  }

  /** A printed branch goes to the printed target exactly when its condition holds; an unknown one faults. */
  lemma BranchGoesToTarget(o: Oracle, m: Machine, raw: bv32)
    requires DecodeRv32(m.pc, raw).Branch?
    ensures var asm := DecodeRv32(m.pc, raw);
            Execute32(o, m, raw) ==
            if asm.cond.UnknownBranch? then Err(m, IllegalInstruction(m.pc, raw))
            else Ok(m.(pc := if Holds(asm.cond, ReadReg(m, asm.rs1), ReadReg(m, asm.rs2)) then asm.target
              else Plus(m.pc, 4)))
  {
    hide Decode, Dispatch, ReadReg, JImm, BImm, Plus, Compare, Holds, Condition;
    DecodeKeepsRaw(raw);
    var d := Decode(raw);
    RouteBranch(o, m, d, Plus(m.pc, 4));
    ConditionMeans(d.funct3, ReadReg(m, d.rs1), ReadReg(m, d.rs2));
  }
}
