/**
 * The base-ISA instruction formats as encoders, and what a 32-bit encoding built
 * with them does when it is executed.
 */
module Formats {
  import opened Bits
  import opened HostImports
  import opened Instructions
  import opened Machine

  // ---- Base instruction formats ----

  function EncodeI(opcode: bv7, rd: bv5, funct3: bv3, rs1: bv5, imm: bv32): bv32 {
    ((imm & 0xFFF) << 20) | ((rs1 as bv32) << 15) | ((funct3 as bv32) << 12) | ((rd as bv32) << 7) | (opcode as bv32)
  }

  function EncodeR(opcode: bv7, rd: bv5, funct3: bv3, rs1: bv5, rs2: bv5, funct7: bv7): bv32 {
    ((funct7 as bv32) << 25) | ((rs2 as bv32) << 20) | ((rs1 as bv32) << 15) | ((funct3 as bv32) << 12)
    | ((rd as bv32) << 7) | (opcode as bv32)
  }

  function EncodeS(opcode: bv7, funct3: bv3, rs1: bv5, rs2: bv5, imm: bv32): bv32 {
    (((imm >> 5) & 0x7F) << 25) | ((rs2 as bv32) << 20) | ((rs1 as bv32) << 15) | ((funct3 as bv32) << 12)
    | ((imm & 0x1F) << 7) | (opcode as bv32)
  }

  function EncodeB(opcode: bv7, funct3: bv3, rs1: bv5, rs2: bv5, imm: bv32): bv32 {
    (((imm >> 12) & 1) << 31) | (((imm >> 5) & 0x3F) << 25) | ((rs2 as bv32) << 20) | ((rs1 as bv32) << 15)
    | ((funct3 as bv32) << 12) | (((imm >> 1) & 0xF) << 8) | (((imm >> 11) & 1) << 7) | (opcode as bv32)
  }

  function EncodeU(opcode: bv7, rd: bv5, imm: bv32): bv32 {
    (imm & 0xFFFF_F000) | ((rd as bv32) << 7) | (opcode as bv32)
  }

  function EncodeJ(opcode: bv7, rd: bv5, imm: bv32): bv32 {
    (((imm >> 20) & 1) << 31) | (((imm >> 1) & 0x3FF) << 21) | (((imm >> 11) & 1) << 20) | (((imm >> 12) & 0xFF) << 12)
    | ((rd as bv32) << 7) | (opcode as bv32)
  }

  /** `imm` is a sign extension: its high bits, given by `mask`, are all equal. */
  predicate Extends(imm: bv32, mask: bv32) { imm & mask == 0 || imm & mask == mask }

  /** Range of a 12-bit immediate, and of 13- and 21-bit offsets that are multiples of two. */
  predicate Fits12(imm: bv32) { Extends(imm, 0xFFFF_F800) }
  predicate Fits13(imm: bv32) { Extends(imm, 0xFFFF_F000) && imm & 1 == 0 }
  predicate Fits21(imm: bv32) { Extends(imm, 0xFFF0_0000) && imm & 1 == 0 }

  // Decoding recovers every field that was encoded.

  lemma DecodeR(opcode: bv7, rd: bv5, funct3: bv3, rs1: bv5, rs2: bv5, funct7: bv7)
    ensures var d := Decode(EncodeR(opcode, rd, funct3, rs1, rs2, funct7));
            d.raw == EncodeR(opcode, rd, funct3, rs1, rs2, funct7) && d.opcode == opcode && d.rd == rd
                && d.funct3 == funct3 && d.rs1 == rs1 && d.rs2 == rs2 && d.funct7 == funct7
  {
  }

  lemma DecodeU(opcode: bv7, rd: bv5, imm: bv32)
    ensures var d := Decode(EncodeU(opcode, rd, imm));
            d.raw == EncodeU(opcode, rd, imm) && d.opcode == opcode && d.rd == rd
    ensures imm & 0xFFF == 0 ==> UImm(EncodeU(opcode, rd, imm)) == imm
  {
  }

  lemma DecodeI(opcode: bv7, rd: bv5, funct3: bv3, rs1: bv5, imm: bv32)
    ensures var d := Decode(EncodeI(opcode, rd, funct3, rs1, imm));
            d.raw == EncodeI(opcode, rd, funct3, rs1, imm) && d.opcode == opcode && d.rd == rd
                && d.funct3 == funct3 && d.rs1 == rs1
    ensures Fits12(imm) ==> IImm(EncodeI(opcode, rd, funct3, rs1, imm)) == imm
  {
    hide Decode, IImm, EncodeI;
    IFields(opcode, rd, funct3, rs1, imm);
    IImmRecovered(opcode, rd, funct3, rs1, imm);
  }

  lemma IFields(opcode: bv7, rd: bv5, funct3: bv3, rs1: bv5, imm: bv32)
    ensures var d := Decode(EncodeI(opcode, rd, funct3, rs1, imm));
            d.raw == EncodeI(opcode, rd, funct3, rs1, imm) && d.opcode == opcode && d.rd == rd
                && d.funct3 == funct3 && d.rs1 == rs1
  {
  }

  lemma IImmRecovered(opcode: bv7, rd: bv5, funct3: bv3, rs1: bv5, imm: bv32)
    ensures Fits12(imm) ==> IImm(EncodeI(opcode, rd, funct3, rs1, imm)) == imm
  {
    hide Sra, Shr, Not, EncodeI;
    SraByTopBit(EncodeI(opcode, rd, funct3, rs1, imm), 20);
    if imm & 0xFFFF_F800 == 0 {
      PositiveI(opcode, rd, funct3, rs1, imm);
    } else {
      NegativeI(opcode, rd, funct3, rs1, imm);
    }
  }

  lemma PositiveI(opcode: bv7, rd: bv5, funct3: bv3, rs1: bv5, imm: bv32)
    requires imm & 0xFFFF_F800 == 0
    ensures var x := EncodeI(opcode, rd, funct3, rs1, imm); x & 0x8000_0000 == 0 && Shr(x, 20) == imm
  {
  }

  lemma NegativeI(opcode: bv7, rd: bv5, funct3: bv3, rs1: bv5, imm: bv32)
    ensures imm & 0xFFFF_F800 == 0xFFFF_F800 ==>
              var x := EncodeI(opcode, rd, funct3, rs1, imm); x & 0x8000_0000 != 0 && Not(Shr(Not(x), 20)) == imm
  {
  }

  lemma DecodeS(opcode: bv7, funct3: bv3, rs1: bv5, rs2: bv5, imm: bv32)
    ensures var d := Decode(EncodeS(opcode, funct3, rs1, rs2, imm));
            d.raw == EncodeS(opcode, funct3, rs1, rs2, imm) && d.opcode == opcode && d.funct3 == funct3
                && d.rs1 == rs1 && d.rs2 == rs2
    ensures Fits12(imm) ==> SImm(EncodeS(opcode, funct3, rs1, rs2, imm)) == imm
  {
    hide Decode, EncodeS, Fits12, SBits, Sra, Shl;
    SFields(opcode, funct3, rs1, rs2, imm);
    SBitsRecovered(opcode, funct3, rs1, rs2, imm);
    Extend12(imm);
  }

  lemma SFields(opcode: bv7, funct3: bv3, rs1: bv5, rs2: bv5, imm: bv32)
    ensures var d := Decode(EncodeS(opcode, funct3, rs1, rs2, imm));
            d.raw == EncodeS(opcode, funct3, rs1, rs2, imm) && d.opcode == opcode && d.funct3 == funct3
                && d.rs1 == rs1 && d.rs2 == rs2
  {
  }

  lemma DecodeB(opcode: bv7, funct3: bv3, rs1: bv5, rs2: bv5, imm: bv32)
    ensures var d := Decode(EncodeB(opcode, funct3, rs1, rs2, imm));
            d.raw == EncodeB(opcode, funct3, rs1, rs2, imm) && d.opcode == opcode && d.funct3 == funct3
                && d.rs1 == rs1 && d.rs2 == rs2
    ensures Fits13(imm) ==> BImm(EncodeB(opcode, funct3, rs1, rs2, imm)) == imm
  {
    hide Decode, EncodeB, Fits13, BBits, Sra, Shl;
    BFields(opcode, funct3, rs1, rs2, imm);
    BBitsRecovered(opcode, funct3, rs1, rs2, imm);
    Extend13(imm);
  }

  lemma BFields(opcode: bv7, funct3: bv3, rs1: bv5, rs2: bv5, imm: bv32)
    ensures var d := Decode(EncodeB(opcode, funct3, rs1, rs2, imm));
            d.raw == EncodeB(opcode, funct3, rs1, rs2, imm) && d.opcode == opcode && d.funct3 == funct3
                && d.rs1 == rs1 && d.rs2 == rs2
  {
  }

  lemma DecodeJ(opcode: bv7, rd: bv5, imm: bv32)
    ensures var d := Decode(EncodeJ(opcode, rd, imm));
            d.raw == EncodeJ(opcode, rd, imm) && d.opcode == opcode && d.rd == rd
    ensures Fits21(imm) ==> JImm(EncodeJ(opcode, rd, imm)) == imm
  {
    hide Decode, EncodeJ, Fits21, JBits, Sra, Shl;
    JFields(opcode, rd, imm);
    JBitsRecovered(opcode, rd, imm);
    Extend21(imm);
  }

  lemma JFields(opcode: bv7, rd: bv5, imm: bv32)
    ensures var d := Decode(EncodeJ(opcode, rd, imm));
            d.raw == EncodeJ(opcode, rd, imm) && d.opcode == opcode && d.rd == rd
  {
  }

  lemma SBitsRecovered(opcode: bv7, funct3: bv3, rs1: bv5, rs2: bv5, imm: bv32)
    ensures SBits(EncodeS(opcode, funct3, rs1, rs2, imm)) == imm & 0xFFF
  {
  }

  lemma BBitsRecovered(opcode: bv7, funct3: bv3, rs1: bv5, rs2: bv5, imm: bv32)
    ensures BBits(EncodeB(opcode, funct3, rs1, rs2, imm)) == imm & 0x1FFE
  {
  }

  lemma JBitsRecovered(opcode: bv7, rd: bv5, imm: bv32)
    ensures JBits(EncodeJ(opcode, rd, imm)) == imm & 0x1F_FFFE
  {
  }

  lemma Extend12(imm: bv32)
    ensures Fits12(imm) ==> Sra(Shl(imm & 0xFFF, 20), 20) == imm
  {
    hide Sra, Shl, Shr, Not;
    var x := Shl(imm & 0xFFF, 20);
    SraByTopBit(x, 20);
    if imm & 0xFFFF_F800 == 0 {
      Positive12(imm);
    } else {
      Negative12(imm);
    }
  }

  lemma Positive12(imm: bv32)
    requires imm & 0xFFFF_F800 == 0
    ensures var x := Shl(imm & 0xFFF, 20); x & 0x8000_0000 == 0 && Shr(x, 20) == imm
  {
  }

  lemma Negative12(imm: bv32)
    ensures imm & 0xFFFF_F800 == 0xFFFF_F800 ==>
              var x := Shl(imm & 0xFFF, 20); x & 0x8000_0000 != 0 && Not(Shr(Not(x), 20)) == imm
  {
  }

  lemma Extend13(imm: bv32)
    ensures Fits13(imm) ==> Sra(Shl(imm & 0x1FFE, 19), 19) == imm
  {
    hide Sra, Shl, Shr, Not;
    var x := Shl(imm & 0x1FFE, 19);
    SraByTopBit(x, 19);
    if imm & 0xFFFF_F000 == 0 && imm & 1 == 0 {
      Positive13(imm);
    } else {
      Negative13(imm);
    }
  }

  lemma Positive13(imm: bv32)
    requires imm & 0xFFFF_F000 == 0 && imm & 1 == 0
    ensures var x := Shl(imm & 0x1FFE, 19); x & 0x8000_0000 == 0 && Shr(x, 19) == imm
  {
  }

  lemma Negative13(imm: bv32)
    ensures imm & 0xFFFF_F000 == 0xFFFF_F000 && imm & 1 == 0 ==>
              var x := Shl(imm & 0x1FFE, 19); x & 0x8000_0000 != 0 && Not(Shr(Not(x), 19)) == imm
  {
  }

  lemma Extend21(imm: bv32)
    ensures Fits21(imm) ==> Sra(Shl(imm & 0x1F_FFFE, 11), 11) == imm
  {
    hide Sra, Shl, Shr, Not;
    var x := Shl(imm & 0x1F_FFFE, 11);
    SraByTopBit(x, 11);
    if imm & 0xFFF0_0000 == 0 && imm & 1 == 0 {
      Positive21(imm);
    } else {
      Negative21(imm);
    }
  }

  lemma Positive21(imm: bv32)
    requires imm & 0xFFF0_0000 == 0 && imm & 1 == 0
    ensures var x := Shl(imm & 0x1F_FFFE, 11); x & 0x8000_0000 == 0 && Shr(x, 11) == imm
  {
  }

  lemma Negative21(imm: bv32)
    ensures imm & 0xFFF0_0000 == 0xFFF0_0000 && imm & 1 == 0 ==>
              var x := Shl(imm & 0x1F_FFFE, 11); x & 0x8000_0000 != 0 && Not(Shr(Not(x), 11)) == imm
  {
  }

  // ---- Meaning of the encodings, one lemma per instruction ----

  // The major opcode selects the arm.

  lemma RouteOp(o: Oracle, m: Machine, d: Inst32, next: bv32)
    requires d.opcode == OP_OP && d.funct7 != 1
    ensures Dispatch(o, m, d, next) == ExecOp(m, d, next)
  {
    hide ExecOp, ExecMulDiv, ExecUpper, ExecBranch, ExecLoad, ExecStore, ExecOpImm, ExecLoadFp;
    hide ExecStoreFp, ExecSystem, ExecAmo, ExecFpu;
  }

  lemma RouteUpper(o: Oracle, m: Machine, d: Inst32, next: bv32)
    requires d.opcode in {OP_LUI, OP_AUIPC, OP_JAL, OP_JALR}
    ensures Dispatch(o, m, d, next) == ExecUpper(m, d, next)
  {
    hide ExecOp, ExecMulDiv, ExecUpper, ExecBranch, ExecLoad, ExecStore, ExecOpImm, ExecLoadFp;
    hide ExecStoreFp, ExecSystem, ExecAmo, ExecFpu;
  }

  lemma RouteBranch(o: Oracle, m: Machine, d: Inst32, next: bv32)
    requires d.opcode == OP_BRANCH
    ensures Dispatch(o, m, d, next) == ExecBranch(m, d, next)
  {
    hide ExecOp, ExecMulDiv, ExecUpper, ExecBranch, ExecLoad, ExecStore, ExecOpImm, ExecLoadFp;
    hide ExecStoreFp, ExecSystem, ExecAmo, ExecFpu;
  }

  lemma RouteLoad(o: Oracle, m: Machine, d: Inst32, next: bv32)
    requires d.opcode == OP_LOAD
    ensures Dispatch(o, m, d, next) == ExecLoad(o, m, d, next)
  {
    hide ExecOp, ExecMulDiv, ExecUpper, ExecBranch, ExecLoad, ExecStore, ExecOpImm, ExecLoadFp;
    hide ExecStoreFp, ExecSystem, ExecAmo, ExecFpu;
  }

  lemma RouteStore(o: Oracle, m: Machine, d: Inst32, next: bv32)
    requires d.opcode == OP_STORE
    ensures Dispatch(o, m, d, next) == ExecStore(m, d, next)
  {
    hide ExecOp, ExecMulDiv, ExecUpper, ExecBranch, ExecLoad, ExecStore, ExecOpImm, ExecLoadFp;
    hide ExecStoreFp, ExecSystem, ExecAmo, ExecFpu;
  }

  lemma RouteOpImm(o: Oracle, m: Machine, d: Inst32, next: bv32)
    requires d.opcode == OP_IMM
    ensures Dispatch(o, m, d, next) == ExecOpImm(m, d, next)
  {
    hide ExecOp, ExecMulDiv, ExecUpper, ExecBranch, ExecLoad, ExecStore, ExecOpImm, ExecLoadFp;
    hide ExecStoreFp, ExecSystem, ExecAmo, ExecFpu;
  }

  lemma RouteLoadFp(o: Oracle, m: Machine, d: Inst32, next: bv32)
    requires d.opcode == OP_LOAD_FP
    ensures Dispatch(o, m, d, next) == ExecLoadFp(o, m, d, next)
  {
    hide ExecOp, ExecMulDiv, ExecUpper, ExecBranch, ExecLoad, ExecStore, ExecOpImm, ExecLoadFp;
    hide ExecStoreFp, ExecSystem, ExecAmo, ExecFpu;
  }

  lemma RouteStoreFp(o: Oracle, m: Machine, d: Inst32, next: bv32)
    requires d.opcode == OP_STORE_FP
    ensures Dispatch(o, m, d, next) == ExecStoreFp(m, d, next)
  {
    hide ExecOp, ExecMulDiv, ExecUpper, ExecBranch, ExecLoad, ExecStore, ExecOpImm, ExecLoadFp;
    hide ExecStoreFp, ExecSystem, ExecAmo, ExecFpu;
  }

  lemma RouteSystem(o: Oracle, m: Machine, d: Inst32, next: bv32)
    requires d.opcode == OP_SYSTEM
    ensures Dispatch(o, m, d, next) == ExecSystem(o, m, d, next)
  {
    hide ExecOp, ExecMulDiv, ExecUpper, ExecBranch, ExecLoad, ExecStore, ExecOpImm, ExecLoadFp;
    hide ExecStoreFp, ExecSystem, ExecAmo, ExecFpu;
  }

  lemma LoadWordMeans(o: Oracle, m: Machine, rd: bv5, rs1: bv5, imm: bv32, next: bv32)
    requires Fits12(imm)
    ensures Dispatch(o, m, Decode(EncodeI(OP_LOAD, rd, 2, rs1, imm)), next) ==
            var r := Get32(o, m, Address(m, rs1, imm));
            Done(WriteReg(r.m, rd, r.val), next)
  {
    hide Dispatch, Decode, EncodeI, IImm, Fits12, ReadReg, WriteReg, ReadFreg, SetFreg, WriteF64, Boxed;
    hide LowWord, Address, Target, Even, Get8, Get16, Get32, GetDouble, Put8, Put16, Put32, PutDouble;
    hide SignExtend8, SignExtend16, ZeroExtend8, ZeroExtend16, LowHalf;
    DecodeI(OP_LOAD, rd, 2, rs1, imm);
    RouteLoad(o, m, Decode(EncodeI(OP_LOAD, rd, 2, rs1, imm)), next);
  }

  lemma LoadFloatMeans(o: Oracle, m: Machine, rd: bv5, rs1: bv5, imm: bv32, next: bv32)
    requires Fits12(imm)
    ensures Dispatch(o, m, Decode(EncodeI(OP_LOAD_FP, rd, 2, rs1, imm)), next) ==
            var r := Get32(o, m, Address(m, rs1, imm));
            Done(SetFreg(r.m, rd, Boxed(r.val)), next)
  {
    hide Dispatch, Decode, EncodeI, IImm, Fits12, ReadReg, WriteReg, ReadFreg, SetFreg, WriteF64, Boxed;
    hide LowWord, Address, Target, Even, Get8, Get16, Get32, GetDouble, Put8, Put16, Put32, PutDouble;
    hide SignExtend8, SignExtend16, ZeroExtend8, ZeroExtend16, LowHalf;
    DecodeI(OP_LOAD_FP, rd, 2, rs1, imm);
    RouteLoadFp(o, m, Decode(EncodeI(OP_LOAD_FP, rd, 2, rs1, imm)), next);
  }

  lemma LoadDoubleMeans(o: Oracle, m: Machine, rd: bv5, rs1: bv5, imm: bv32, next: bv32)
    requires Fits12(imm)
    ensures Dispatch(o, m, Decode(EncodeI(OP_LOAD_FP, rd, 3, rs1, imm)), next) ==
            var r := GetDouble(o, m, Address(m, rs1, imm));
            Done(WriteF64(r.m, rd, r.val), next)
  {
    hide Dispatch, Decode, EncodeI, IImm, Fits12, ReadReg, WriteReg, ReadFreg, SetFreg, WriteF64, Boxed;
    hide LowWord, Address, Target, Even, Get8, Get16, Get32, GetDouble, Put8, Put16, Put32, PutDouble;
    hide SignExtend8, SignExtend16, ZeroExtend8, ZeroExtend16, LowHalf;
    DecodeI(OP_LOAD_FP, rd, 3, rs1, imm);
    RouteLoadFp(o, m, Decode(EncodeI(OP_LOAD_FP, rd, 3, rs1, imm)), next);
  }

  lemma StoreWordMeans(o: Oracle, m: Machine, rs1: bv5, rs2: bv5, imm: bv32, next: bv32)
    requires Fits12(imm)
    ensures Dispatch(o, m, Decode(EncodeS(OP_STORE, 2, rs1, rs2, imm)), next) ==
            Done(Put32(m, Address(m, rs1, imm), ReadReg(m, rs2)), next)
  {
    hide Dispatch, Decode, EncodeS, SImm, Fits12, ReadReg, WriteReg, ReadFreg, SetFreg, WriteF64, Boxed;
    hide LowWord, Address, Target, Even, Get8, Get16, Get32, GetDouble, Put8, Put16, Put32, PutDouble;
    hide SignExtend8, SignExtend16, ZeroExtend8, ZeroExtend16, LowHalf;
    DecodeS(OP_STORE, 2, rs1, rs2, imm);
    RouteStore(o, m, Decode(EncodeS(OP_STORE, 2, rs1, rs2, imm)), next);
  }

  lemma StoreFloatMeans(o: Oracle, m: Machine, rs1: bv5, rs2: bv5, imm: bv32, next: bv32)
    requires Fits12(imm)
    ensures Dispatch(o, m, Decode(EncodeS(OP_STORE_FP, 2, rs1, rs2, imm)), next) ==
            Done(Put32(m, Address(m, rs1, imm), LowWord(ReadFreg(m, rs2))), next)
  {
    hide Dispatch, Decode, EncodeS, SImm, Fits12, ReadReg, WriteReg, ReadFreg, SetFreg, WriteF64, Boxed;
    hide LowWord, Address, Target, Even, Get8, Get16, Get32, GetDouble, Put8, Put16, Put32, PutDouble;
    hide SignExtend8, SignExtend16, ZeroExtend8, ZeroExtend16, LowHalf;
    DecodeS(OP_STORE_FP, 2, rs1, rs2, imm);
    RouteStoreFp(o, m, Decode(EncodeS(OP_STORE_FP, 2, rs1, rs2, imm)), next);
  }

  lemma StoreDoubleMeans(o: Oracle, m: Machine, rs1: bv5, rs2: bv5, imm: bv32, next: bv32)
    requires Fits12(imm)
    ensures Dispatch(o, m, Decode(EncodeS(OP_STORE_FP, 3, rs1, rs2, imm)), next) ==
            Done(PutDouble(m, Address(m, rs1, imm), ReadFreg(m, rs2)), next)
  {
    hide Dispatch, Decode, EncodeS, SImm, Fits12, ReadReg, WriteReg, ReadFreg, SetFreg, WriteF64, Boxed;
    hide LowWord, Address, Target, Even, Get8, Get16, Get32, GetDouble, Put8, Put16, Put32, PutDouble;
    hide SignExtend8, SignExtend16, ZeroExtend8, ZeroExtend16, LowHalf;
    DecodeS(OP_STORE_FP, 3, rs1, rs2, imm);
    RouteStoreFp(o, m, Decode(EncodeS(OP_STORE_FP, 3, rs1, rs2, imm)), next);
  }

  lemma OpImmMeans(o: Oracle, m: Machine, rd: bv5, funct3: bv3, rs1: bv5, imm: bv32, next: bv32)
    requires Fits12(imm) && funct3 != 1 && funct3 != 5
    ensures Dispatch(o, m, Decode(EncodeI(OP_IMM, rd, funct3, rs1, imm)), next) ==
            Done(WriteReg(m, rd, ImmResult(funct3, 0, ReadReg(m, rs1), imm, 0)), next)
  {
    hide Dispatch, Decode, EncodeI, IImm, Fits12, ReadReg, WriteReg, ReadFreg, SetFreg, WriteF64, Boxed;
    hide LowWord, Address, Target, Even, ImmResult;
    DecodeI(OP_IMM, rd, funct3, rs1, imm);
    RouteOpImm(o, m, Decode(EncodeI(OP_IMM, rd, funct3, rs1, imm)), next);
    var d := Decode(EncodeI(OP_IMM, rd, funct3, rs1, imm));
    ImmIgnoresShift(funct3, d.funct7, ReadReg(m, rs1), imm, d.rs2);
  }

  lemma ShiftMeans(o: Oracle, m: Machine, rd: bv5, funct3: bv3, rs1: bv5, shamt: bv5, funct7: bv7, next: bv32)
    requires funct3 == 1 || funct3 == 5
    ensures Dispatch(o, m, Decode(EncodeR(OP_IMM, rd, funct3, rs1, shamt, funct7)), next) ==
            Done(WriteReg(m, rd, ImmResult(funct3, funct7, ReadReg(m, rs1), 0, shamt)), next)
  {
    hide Dispatch, Decode, EncodeR, ReadReg, WriteReg, ReadFreg, SetFreg, WriteF64, Boxed, LowWord;
    hide Address, Target, Even, ImmResult, IImm;
    DecodeR(OP_IMM, rd, funct3, rs1, shamt, funct7);
    RouteOpImm(o, m, Decode(EncodeR(OP_IMM, rd, funct3, rs1, shamt, funct7)), next);
    ShiftIgnoresImm(funct3, funct7, ReadReg(m, rs1), IImm(EncodeR(OP_IMM, rd, funct3, rs1, shamt, funct7)), shamt);
  }

  lemma OpMeans(o: Oracle, m: Machine, rd: bv5, funct3: bv3, rs1: bv5, rs2: bv5, funct7: bv7, next: bv32)
    requires IsOp(funct7, funct3)
    ensures Dispatch(o, m, Decode(EncodeR(OP_OP, rd, funct3, rs1, rs2, funct7)), next) ==
            Done(WriteReg(m, rd, OpResult(funct7, funct3, ReadReg(m, rs1), ReadReg(m, rs2))), next)
  {
    hide Dispatch, Decode, EncodeR, ReadReg, WriteReg, ReadFreg, SetFreg, WriteF64, Boxed, LowWord;
    hide Address, Target, Even, OpResult;
    DecodeR(OP_OP, rd, funct3, rs1, rs2, funct7);
    RouteOp(o, m, Decode(EncodeR(OP_OP, rd, funct3, rs1, rs2, funct7)), next);
  }

  lemma LuiMeans(o: Oracle, m: Machine, rd: bv5, imm: bv32, next: bv32)
    requires imm & 0xFFF == 0
    ensures Dispatch(o, m, Decode(EncodeU(OP_LUI, rd, imm)), next) ==
            Done(WriteReg(m, rd, imm), next)
  {
    hide Dispatch, Decode, EncodeU, UImm, ReadReg, WriteReg, ReadFreg, SetFreg, WriteF64, Boxed;
    hide LowWord, Address, Target, Even;
    DecodeU(OP_LUI, rd, imm);
    RouteUpper(o, m, Decode(EncodeU(OP_LUI, rd, imm)), next);
  }

  lemma AuipcMeans(o: Oracle, m: Machine, rd: bv5, imm: bv32, next: bv32)
    requires imm & 0xFFF == 0
    ensures Dispatch(o, m, Decode(EncodeU(OP_AUIPC, rd, imm)), next) ==
            Done(WriteReg(m, rd, Target(m, imm)), next)
  {
    hide Dispatch, Decode, EncodeU, UImm, ReadReg, WriteReg, Address, Target, Even;
    DecodeU(OP_AUIPC, rd, imm);
    RouteUpper(o, m, Decode(EncodeU(OP_AUIPC, rd, imm)), next);
  }

  /** FENCE and FENCE.I do nothing. */
  lemma FenceMeans(o: Oracle, m: Machine, d: Inst32, next: bv32)
    requires d.opcode == OP_MISC_MEM
    ensures Dispatch(o, m, d, next) == Done(m, next)
  {
    hide ExecOp, ExecMulDiv, ExecUpper, ExecBranch, ExecLoad, ExecStore, ExecOpImm, ExecLoadFp;
    hide ExecStoreFp, ExecSystem, ExecAmo, ExecFpu;
  }

  lemma RouteMulDiv(o: Oracle, m: Machine, d: Inst32, next: bv32)
    requires d.opcode == OP_OP && d.funct7 == 1
    ensures Dispatch(o, m, d, next) == ExecMulDiv(m, d, next)
  {
    hide ExecOp, ExecMulDiv, ExecUpper, ExecBranch, ExecLoad, ExecStore, ExecOpImm, ExecLoadFp;
    hide ExecStoreFp, ExecSystem, ExecAmo, ExecFpu;
  }

  lemma MulDivMeans(o: Oracle, m: Machine, rd: bv5, funct3: bv3, rs1: bv5, rs2: bv5, next: bv32)
    ensures Dispatch(o, m, Decode(EncodeR(OP_OP, rd, funct3, rs1, rs2, 1)), next) ==
            Done(WriteReg(m, rd, MulDiv(funct3, ReadReg(m, rs1), ReadReg(m, rs2))), next)
  {
    hide Dispatch, Decode, EncodeR, ReadReg, WriteReg, MulDiv;
    DecodeR(OP_OP, rd, funct3, rs1, rs2, 1);
    RouteMulDiv(o, m, Decode(EncodeR(OP_OP, rd, funct3, rs1, rs2, 1)), next);
  }

  lemma RouteAmo(o: Oracle, m: Machine, d: Inst32, next: bv32)
    requires d.opcode == OP_AMO
    ensures Dispatch(o, m, d, next) == ExecAmo(o, m, d, next)
  {
    hide ExecOp, ExecMulDiv, ExecUpper, ExecBranch, ExecLoad, ExecStore, ExecOpImm, ExecLoadFp;
    hide ExecStoreFp, ExecSystem, ExecAmo, ExecFpu;
  }

  lemma JalMeans(o: Oracle, m: Machine, rd: bv5, imm: bv32, next: bv32)
    requires Fits21(imm)
    ensures Dispatch(o, m, Decode(EncodeJ(OP_JAL, rd, imm)), next) ==
            Done(WriteReg(m, rd, next), Target(m, imm))
  {
    hide Dispatch, Decode, EncodeJ, JImm, Fits21, ReadReg, WriteReg, ReadFreg, SetFreg, WriteF64, Boxed;
    hide LowWord, Address, Target, Even;
    DecodeJ(OP_JAL, rd, imm);
    RouteUpper(o, m, Decode(EncodeJ(OP_JAL, rd, imm)), next);
  }

  lemma JalrMeans(o: Oracle, m: Machine, rd: bv5, rs1: bv5, imm: bv32, next: bv32)
    requires Fits12(imm)
    ensures Dispatch(o, m, Decode(EncodeI(OP_JALR, rd, 0, rs1, imm)), next) ==
            Done(WriteReg(m, rd, next), Even(Address(m, rs1, imm)))
  {
    hide Dispatch, Decode, EncodeI, IImm, Fits12, ReadReg, WriteReg, ReadFreg, SetFreg, WriteF64, Boxed;
    hide LowWord, Address, Target, Even;
    DecodeI(OP_JALR, rd, 0, rs1, imm);
    RouteUpper(o, m, Decode(EncodeI(OP_JALR, rd, 0, rs1, imm)), next);
  }

  lemma BranchMeans(o: Oracle, m: Machine, funct3: bv3, rs1: bv5, rs2: bv5, imm: bv32, next: bv32)
    requires Fits13(imm) && funct3 != 2 && funct3 != 3
    ensures Dispatch(o, m, Decode(EncodeB(OP_BRANCH, funct3, rs1, rs2, imm)), next) ==
            Done(m, if Compare(funct3, ReadReg(m, rs1), ReadReg(m, rs2)) then Target(m, imm) else next)
  {
    hide Dispatch, Decode, EncodeB, BImm, Fits13, ReadReg, WriteReg, ReadFreg, SetFreg, WriteF64, Boxed;
    hide LowWord, Address, Target, Even, Compare;
    DecodeB(OP_BRANCH, funct3, rs1, rs2, imm);
    RouteBranch(o, m, Decode(EncodeB(OP_BRANCH, funct3, rs1, rs2, imm)), next);
  }

  lemma ImmIgnoresShift(funct3: bv3, funct7: bv7, src: bv32, imm: bv32, shamt: bv5)
    requires funct3 != 1 && funct3 != 5
    ensures ImmResult(funct3, funct7, src, imm, shamt) == ImmResult(funct3, 0, src, imm, 0)
  {
  }

  lemma ShiftIgnoresImm(funct3: bv3, funct7: bv7, src: bv32, imm: bv32, shamt: bv5)
    requires funct3 == 1 || funct3 == 5
    ensures ImmResult(funct3, funct7, src, imm, shamt) == ImmResult(funct3, funct7, src, 0, shamt)
  {
  }

  const ECALL: bv32 := 0x0000_0073
  const EBREAK: bv32 := 0x0010_0073

  lemma DecodeSystem()
    ensures var d := Decode(ECALL); d.raw == ECALL && d.opcode == OP_SYSTEM && d.funct3 == 0 && CsrNumber(ECALL) == 0
    ensures var d := Decode(EBREAK); d.raw == EBREAK && d.opcode == OP_SYSTEM && d.funct3 == 0 && CsrNumber(EBREAK) == 1
  {
  }

  lemma EcallMeans(o: Oracle, m: Machine, next: bv32)
    ensures Dispatch(o, m, Decode(ECALL), next) == ExecEcall(o, m, next)
  {
    hide Dispatch, Decode, CsrNumber, ExecEcall, ExecMret, ExecCsr;
    DecodeSystem();
    RouteSystem(o, m, Decode(ECALL), next);
  }

  lemma EbreakMeans(o: Oracle, m: Machine, next: bv32)
    ensures Dispatch(o, m, Decode(EBREAK), next) == Done(m.(halted := true), next)
  {
    hide Dispatch, Decode, CsrNumber, ExecEcall, ExecMret, ExecCsr;
    DecodeSystem();
    RouteSystem(o, m, Decode(EBREAK), next);
  }
}
