/**
 * The RV32C expansion of chapter 16 of the RISC-V Unprivileged ISA, version
 * 20191213: for every compressed encoding, the 32-bit instruction it stands for.
 *
 * The immediates are read off the instruction listing of section 16.8 one bit at
 * a time, independently of the masks and shifts of the executor, and the result
 * is an encoding in a base-ISA format. The theorems at the end compare the two
 * executors for every halfword and every machine.
 */
module Expansion {
  import opened Wrappers
  import opened Bits
  import opened HostImports
  import opened Instructions
  import opened Machine
  import opened Formats
  import opened Compressed

  // ---- Immediates of section 16.8 ----

  /** Instruction bit `from`, placed at immediate bit `to`. */
  function Bit(inst: bv16, from: bv4, to: bv5): bv32 {
    (((inst >> from) & 1) as bv32) << to
  }

  /** The sign bit: instruction bit 12 at `to` and everywhere above it. */
  function Sign(inst: bv16, to: bv5): bv32 {
    if (inst >> 12) & 1 == 1 then 0xFFFF_FFFF << to else 0
  }

  function Uimm_5_4_9_6_2_3(i: bv16): bv32 {
    Bit(i, 12, 5) | Bit(i, 11, 4) | Bit(i, 10, 9) | Bit(i, 9, 8) | Bit(i, 8, 7) | Bit(i, 7, 6) | Bit(i, 6, 2)
      | Bit(i, 5, 3)
  }

  function Uimm_5_3_7_6(i: bv16): bv32 {
    Bit(i, 12, 5) | Bit(i, 11, 4) | Bit(i, 10, 3) | Bit(i, 6, 7) | Bit(i, 5, 6)
  }

  function Uimm_5_3_2_6(i: bv16): bv32 {
    Bit(i, 12, 5) | Bit(i, 11, 4) | Bit(i, 10, 3) | Bit(i, 6, 2) | Bit(i, 5, 6)
  }

  function Imm_5_4_0(i: bv16): bv32 {
    Sign(i, 5) | Bit(i, 6, 4) | Bit(i, 5, 3) | Bit(i, 4, 2) | Bit(i, 3, 1) | Bit(i, 2, 0)
  }

  function Imm_17_16_12(i: bv16): bv32 {
    Sign(i, 17) | Bit(i, 6, 16) | Bit(i, 5, 15) | Bit(i, 4, 14) | Bit(i, 3, 13) | Bit(i, 2, 12)
  }

  function Imm_9_4_6_8_7_5(i: bv16): bv32 {
    Sign(i, 9) | Bit(i, 6, 4) | Bit(i, 5, 6) | Bit(i, 4, 8) | Bit(i, 3, 7) | Bit(i, 2, 5)
  }

  function Imm_11_4_9_8_10_6_7_3_1_5(i: bv16): bv32 {
    Sign(i, 11) | Bit(i, 11, 4) | Bit(i, 10, 9) | Bit(i, 9, 8) | Bit(i, 8, 10) | Bit(i, 7, 6) | Bit(i, 6, 7)
    | Bit(i, 5, 3) | Bit(i, 4, 2) | Bit(i, 3, 1) | Bit(i, 2, 5)
  }

  function Imm_8_4_3_7_6_2_1_5(i: bv16): bv32 {
    Sign(i, 8) | Bit(i, 11, 4) | Bit(i, 10, 3) | Bit(i, 6, 7) | Bit(i, 5, 6) | Bit(i, 4, 2) | Bit(i, 3, 1)
      | Bit(i, 2, 5)
  }

  function Uimm_5_4_3_8_6(i: bv16): bv32 {
    Bit(i, 12, 5) | Bit(i, 6, 4) | Bit(i, 5, 3) | Bit(i, 4, 8) | Bit(i, 3, 7) | Bit(i, 2, 6)
  }

  function Uimm_5_4_2_7_6(i: bv16): bv32 {
    Bit(i, 12, 5) | Bit(i, 6, 4) | Bit(i, 5, 3) | Bit(i, 4, 2) | Bit(i, 3, 7) | Bit(i, 2, 6)
  }

  function Uimm_5_3_8_6(i: bv16): bv32 {
    Bit(i, 12, 5) | Bit(i, 11, 4) | Bit(i, 10, 3) | Bit(i, 9, 8) | Bit(i, 8, 7) | Bit(i, 7, 6)
  }

  function Uimm_5_2_7_6(i: bv16): bv32 {
    Bit(i, 12, 5) | Bit(i, 11, 4) | Bit(i, 10, 3) | Bit(i, 9, 2) | Bit(i, 8, 7) | Bit(i, 7, 6)
  }

  // ---- Register fields: rd'/rs1'/rs2' are x8..x15 ----

  function Full(i: bv16, at: bv4): bv5 { ((i >> at) & 0x1F) as bv5 }
  function Prime(i: bv16, at: bv4): bv5 { 8 | (((i >> at) & 0x7) as bv5) }

  // ---- Expansion ----

  function ExpandQuadrant0(i: bv16): Option<bv32> {
    var f := (i >> 13) as bv3;
    var low, high := Prime(i, 2), Prime(i, 7);
    if f == 0 then
      if Uimm_5_4_9_6_2_3(i) == 0 then None else Some(EncodeI(OP_IMM, low, 0, 2, Uimm_5_4_9_6_2_3(i)))  // addi rd', x2
    else if f == 1 then Some(EncodeI(OP_LOAD_FP, low, 3, high, Uimm_5_3_7_6(i)))                        // fld
    else if f == 2 then Some(EncodeI(OP_LOAD, low, 2, high, Uimm_5_3_2_6(i)))                           // lw
    else if f == 3 then Some(EncodeI(OP_LOAD_FP, low, 2, high, Uimm_5_3_2_6(i)))                        // flw
    else if f == 4 then None
    else if f == 5 then Some(EncodeS(OP_STORE_FP, 3, high, low, Uimm_5_3_7_6(i)))                       // fsd
    else if f == 6 then Some(EncodeS(OP_STORE, 2, high, low, Uimm_5_3_2_6(i)))                          // sw
    else Some(EncodeS(OP_STORE_FP, 2, high, low, Uimm_5_3_2_6(i)))                                      // fsw
  }

  function ExpandLui(i: bv16): Option<bv32> {
    var rd := Full(i, 7);
    if rd == 2 then
      if Imm_9_4_6_8_7_5(i) == 0 then None else Some(EncodeI(OP_IMM, 2, 0, 2, Imm_9_4_6_8_7_5(i)))      // addi x2, x2
    else
      if Imm_17_16_12(i) == 0 then None else Some(EncodeU(OP_LUI, rd, Imm_17_16_12(i)))  // lui; rd = x0 is a HINT
  }

  function ExpandArithmetic(i: bv16): Option<bv32> {
    var rd := Prime(i, 7);
    var rs2 := Prime(i, 2);
    var shamt := Full(i, 2);
    var kind := ((i >> 10) & 0x3) as bv2;
    var bit12 := (i >> 12) & 1;
    if kind == 0 then
      if bit12 == 1 then None else Some(EncodeR(OP_IMM, rd, 5, rd, shamt, 0x00))                        // srli
    else if kind == 1 then
      if bit12 == 1 then None else Some(EncodeR(OP_IMM, rd, 5, rd, shamt, 0x20))                        // srai
    else if kind == 2 then Some(EncodeI(OP_IMM, rd, 7, rd, Imm_5_4_0(i)))                               // andi
    else if bit12 == 1 then None
    else
      var which := ((i >> 5) & 0x3) as bv2;
      if which == 0 then Some(EncodeR(OP_OP, rd, 0, rd, rs2, 0x20))                                     // sub
      else if which == 1 then Some(EncodeR(OP_OP, rd, 4, rd, rs2, 0x00))                                // xor
      else if which == 2 then Some(EncodeR(OP_OP, rd, 6, rd, rs2, 0x00))                                // or
      else Some(EncodeR(OP_OP, rd, 7, rd, rs2, 0x00))                                                   // and
  }

  function ExpandQuadrant1(i: bv16): Option<bv32> {
    var f := (i >> 13) as bv3;
    var rd := Full(i, 7);
    if f == 0 then Some(EncodeI(OP_IMM, rd, 0, rd, Imm_5_4_0(i)))                                       // addi
    else if f == 1 then Some(EncodeJ(OP_JAL, 1, Imm_11_4_9_8_10_6_7_3_1_5(i)))                          // jal x1
    else if f == 2 then Some(EncodeI(OP_IMM, rd, 0, 0, Imm_5_4_0(i)))                                   // addi rd, x0
    else if f == 3 then ExpandLui(i)
    else if f == 4 then ExpandArithmetic(i)
    else if f == 5 then Some(EncodeJ(OP_JAL, 0, Imm_11_4_9_8_10_6_7_3_1_5(i)))                          // jal x0
    else if f == 6 then Some(EncodeB(OP_BRANCH, 0, Prime(i, 7), 0, Imm_8_4_3_7_6_2_1_5(i)))             // beq rs1', x0
    else Some(EncodeB(OP_BRANCH, 1, Prime(i, 7), 0, Imm_8_4_3_7_6_2_1_5(i)))                            // bne rs1', x0
  }

  function ExpandJump(i: bv16): Option<bv32> {
    var rd, rs2 := Full(i, 7), Full(i, 2);
    if (i >> 12) & 1 == 0 then
      if rs2 != 0 then Some(EncodeR(OP_OP, rd, 0, 0, rs2, 0x00))  // add rd, x0, rs2
      else if rd == 0 then None
      else Some(EncodeI(OP_JALR, 0, 0, rd, 0))  // jalr x0, 0(rs1)
    else
      if rs2 != 0 then Some(EncodeR(OP_OP, rd, 0, rd, rs2, 0x00))  // add rd, rd, rs2
      else if rd == 0 then Some(EBREAK)
      else Some(EncodeI(OP_JALR, 1, 0, rd, 0))  // jalr x1, 0(rs1)
  }

  function ExpandQuadrant2(i: bv16): Option<bv32> {
    var f := (i >> 13) as bv3;
    var rd, rs2 := Full(i, 7), Full(i, 2);
    if f == 0 then
      if (i >> 12) & 1 == 1 then None else Some(EncodeR(OP_IMM, rd, 1, rd, rs2, 0x00))                  // slli
    else if f == 1 then Some(EncodeI(OP_LOAD_FP, rd, 3, 2, Uimm_5_4_3_8_6(i)))                          // fld rd, (x2)
    else if f == 2 then
      if rd == 0 then None else Some(EncodeI(OP_LOAD, rd, 2, 2, Uimm_5_4_2_7_6(i)))                     // lw rd, (x2)
    else if f == 3 then Some(EncodeI(OP_LOAD_FP, rd, 2, 2, Uimm_5_4_2_7_6(i)))                          // flw rd, (x2)
    else if f == 4 then ExpandJump(i)
    else if f == 5 then Some(EncodeS(OP_STORE_FP, 3, 2, rs2, Uimm_5_3_8_6(i)))                          // fsd rs2, (x2)
    else if f == 6 then Some(EncodeS(OP_STORE, 2, 2, rs2, Uimm_5_2_7_6(i)))                             // sw rs2, (x2)
    else Some(EncodeS(OP_STORE_FP, 2, 2, rs2, Uimm_5_2_7_6(i)))                                         // fsw rs2, (x2)
  }

  /** The 32-bit instruction a halfword stands for on RV32, if any. */
  function Expand(i: bv16): Option<bv32> {
    var op := (i & 0x3) as bv2;
    if op == 0 then ExpandQuadrant0(i)
    else if op == 1 then ExpandQuadrant1(i)
    else if op == 2 then ExpandQuadrant2(i)
    else None
  }

  // ---- The executor's fields are those of the standard ----

  lemma FieldsAgree(i: bv16)
    ensures Op(i) == (i & 0x3) as bv2 && Funct3(i) == (i >> 13) as bv3
    ensures Creg(i, 2) == Prime(i, 2) && Creg(i, 7) == Prime(i, 7)
    ensures Reg(i, 2) == Full(i, 2) && Reg(i, 7) == Full(i, 7) && Shamt(i) == Full(i, 2)
  {
  }

  lemma Addi4spnAgrees(i: bv16)
    ensures Addi4spnImm(i) == Uimm_5_4_9_6_2_3(i) && Fits12(Addi4spnImm(i))
  {
  }

  lemma ClWordAgrees(i: bv16)
    ensures ClWordOffset(i) == Uimm_5_3_2_6(i) && Fits12(ClWordOffset(i))
  {
  }

  lemma ClDoubleAgrees(i: bv16)
    ensures ClDoubleOffset(i) == Uimm_5_3_7_6(i) && Fits12(ClDoubleOffset(i))
  {
  }

  lemma CiWordSpAgrees(i: bv16)
    ensures CiWordSpOffset(i) == Uimm_5_4_2_7_6(i) && Fits12(CiWordSpOffset(i))
  {
  }

  lemma CiDoubleSpAgrees(i: bv16)
    ensures CiDoubleSpOffset(i) == Uimm_5_4_3_8_6(i) && Fits12(CiDoubleSpOffset(i))
  {
  }

  lemma CssWordSpAgrees(i: bv16)
    ensures CssWordSpOffset(i) == Uimm_5_2_7_6(i) && Fits12(CssWordSpOffset(i))
  {
  }

  lemma CssDoubleSpAgrees(i: bv16)
    ensures CssDoubleSpOffset(i) == Uimm_5_3_8_6(i) && Fits12(CssDoubleSpOffset(i))
  {
  }

  lemma Imm6Agrees(i: bv16)
    ensures Imm6Extended(i) == Imm_5_4_0(i) && Fits12(Imm6Extended(i))
  {
  }

  lemma UpperAgrees(i: bv16)
    ensures Shl(Imm6Extended(i), 12) == Imm_17_16_12(i) && Imm_17_16_12(i) & 0xFFF == 0
    ensures Imm6(i) == 0 <==> Imm_17_16_12(i) == 0
  {
  }

  lemma Addi16spAgrees(i: bv16)
    ensures Addi16spExtended(i) == Imm_9_4_6_8_7_5(i) && Fits12(Addi16spExtended(i))
    ensures Addi16spImm(i) == 0 <==> Imm_9_4_6_8_7_5(i) == 0
  {
  }

  lemma JumpOffsetAgrees(i: bv16)
    ensures CjOffset(i) == Imm_11_4_9_8_10_6_7_3_1_5(i)
  {
    hide CjOffset, Imm_11_4_9_8_10_6_7_3_1_5;
    if (i >> 12) & 1 == 0 {
      JumpForward(i);
    } else {
      JumpBackward(i);
    }
  }

  lemma JumpForward(i: bv16)
    requires (i >> 12) & 1 == 0
    ensures CjOffset(i) == Imm_11_4_9_8_10_6_7_3_1_5(i)
  {
  }

  lemma JumpBackward(i: bv16)
    requires (i >> 12) & 1 != 0
    ensures CjOffset(i) == Imm_11_4_9_8_10_6_7_3_1_5(i)
  {
  }

  lemma JumpOffsetFits(i: bv16)
    ensures Fits21(CjOffset(i))
  {
    hide CjImm, Fits21, SignExtend16, Sra16;
    CjImmIsEven(i);
    EvenFits21(CjImm(i));
  }

  lemma CjImmIsEven(i: bv16)
    ensures CjImm(i) & 1 == 0
  {
  }

  lemma EvenFits21(x: bv16)
    requires x & 1 == 0
    ensures Fits21(SignExtend16(Sra16(x << 4, 4)))
  {
  }

  lemma BranchOffsetAgrees(i: bv16)
    ensures CbOffset(i) == Imm_8_4_3_7_6_2_1_5(i) && Fits13(CbOffset(i))
  {
  }

  // ---- The two executors agree, arm by arm ----

  /** What an arm must be for a given expansion. */
  predicate Refines(o: Oracle, m: Machine, i: bv16, arm: Arm, expansion: Option<bv32>, next: bv32) {
    match expansion
    case None => arm == Reserved(m, i)
    case Some(raw) => arm == Dispatch(o, m, Decode(raw), next) && arm.Done?
  }

  lemma Quadrant0Refines(o: Oracle, m: Machine, i: bv16, next: bv32)
    ensures Refines(o, m, i, Quadrant0(o, m, i, next), ExpandQuadrant0(i), next)
  {
    hide Funct3, Creg, Prime, Addi4spnImm, ClWordOffset, ClDoubleOffset, Uimm_5_4_9_6_2_3, Uimm_5_3_2_6;
    hide Uimm_5_3_7_6;
    hide Fits12, EncodeI, EncodeS, Decode, Dispatch, ReadReg, WriteReg, ReadFreg, SetFreg, WriteF64;
    hide Boxed, LowWord, Address;
    hide Get32, GetDouble, Put32, PutDouble, Reserved, ImmResult;
    FieldsAgree(i);
    Addi4spnAgrees(i);
    ClWordAgrees(i);
    ClDoubleAgrees(i);
    var f := Funct3(i);
    var low, high := Creg(i, 2), Creg(i, 7);
    if f == 0 {
      AddImmediate(m, 2, Addi4spnImm(i));
      OpImmMeans(o, m, low, 0, 2, Addi4spnImm(i), next);
    } else if f == 1 {
      LoadDoubleMeans(o, m, low, high, ClDoubleOffset(i), next);
    } else if f == 2 {
      LoadWordMeans(o, m, low, high, ClWordOffset(i), next);
    } else if f == 3 {
      LoadFloatMeans(o, m, low, high, ClWordOffset(i), next);
    } else if f == 5 {
      StoreDoubleMeans(o, m, high, low, ClDoubleOffset(i), next);
    } else if f == 6 {
      StoreWordMeans(o, m, high, low, ClWordOffset(i), next);
    } else if f == 7 {
      StoreFloatMeans(o, m, high, low, ClWordOffset(i), next);
    }
  }

  lemma AddImmediate(m: Machine, r: bv5, imm: bv32)
    ensures ImmResult(0, 0, ReadReg(m, r), imm, 0) == Address(m, r, imm)
  {
    hide Plus, ReadReg;
  }

  lemma AddZero(x: bv32)
    ensures Plus(x, 0) == x && Plus(0, x) == x
  {
  }

  lemma RegisterZero(m: Machine, v: bv32)
    ensures ReadReg(m, 0) == 0 && WriteReg(m, 0, v) == m
  {
  }

  lemma WriteBack(m: Machine, r: bv5)
    ensures WriteReg(m, r, ReadReg(m, r)) == m
  {
    if r != 0 {
      assert m.regs[r as int := m.regs[r as int]] == m.regs;
    }
  }

  /** Immediate operations as the compressed arms write them. */
  lemma ImmediateForms(x: bv32, imm: bv32, shamt: bv5)
    ensures ImmResult(0, 0, x, imm, 0) == Plus(x, imm)
    ensures ImmResult(7, 0, x, imm, 0) == And(x, imm)
    ensures ImmResult(1, 0, x, 0, shamt) == Shl(x, shamt)
    ensures ImmResult(5, 0, x, 0, shamt) == Shr(x, shamt)
    ensures ImmResult(5, 0x20, x, 0, shamt) == Sra(x, shamt)
  {
    hide Plus, And, Shl, Shr, Sra;
  }

  lemma ShiftByZero(x: bv32)
    ensures Shl(x, 0) == x && Shr(x, 0) == x && Sra(x, 0) == x
  {
    assert x << 0 == x && x >> 0 == x && !(!x >> 0) == x;
  }

  lemma RegisterForms(a: bv32, b: bv32)
    ensures OpResult(0x00, 0, a, b) == Plus(a, b)
    ensures OpResult(0x20, 0, a, b) == Minus(a, b)
    ensures OpResult(0x00, 4, a, b) == Xor(a, b)
    ensures OpResult(0x00, 6, a, b) == Or(a, b)
    ensures OpResult(0x00, 7, a, b) == And(a, b)
  {
    hide Plus, Minus, Xor, Or, And;
  }

  /** C.ADDI and C.NOP; a zero register or a zero immediate changes nothing either way. */
  lemma AddiRefines(o: Oracle, m: Machine, i: bv16, next: bv32)
    requires Funct3(i) == 0
    ensures Refines(o, m, i, Quadrant1(m, i, next), ExpandQuadrant1(i), next)
  {
    hide Funct3, Reg, Full, Imm6Extended, Imm_5_4_0, Fits12, EncodeI, Decode, Dispatch, ReadReg;
    hide WriteReg, ImmResult, Plus;
    FieldsAgree(i);
    Imm6Agrees(i);
    var rd, imm := Reg(i, 7), Imm6Extended(i);
    OpImmMeans(o, m, rd, 0, rd, imm, next);
    ImmediateForms(ReadReg(m, rd), imm, 0);
    AddZero(ReadReg(m, rd));
    RegisterZero(m, Plus(ReadReg(m, rd), imm));
    WriteBack(m, rd);
  }

  lemma LiRefines(o: Oracle, m: Machine, i: bv16, next: bv32)
    requires Funct3(i) == 2
    ensures Refines(o, m, i, Quadrant1(m, i, next), ExpandQuadrant1(i), next)
  {
    hide Funct3, Reg, Full, Imm6Extended, Imm_5_4_0, Fits12, EncodeI, Decode, Dispatch, ReadReg;
    hide WriteReg, ImmResult, Plus;
    FieldsAgree(i);
    Imm6Agrees(i);
    var rd, imm := Reg(i, 7), Imm6Extended(i);
    OpImmMeans(o, m, rd, 0, 0, imm, next);
    ImmediateForms(ReadReg(m, 0), imm, 0);
    AddZero(imm);
    RegisterZero(m, 0);
  }

  /** C.J and C.JAL. */
  lemma JumpsRefine(o: Oracle, m: Machine, i: bv16, next: bv32)
    requires Funct3(i) == 1 || Funct3(i) == 5
    ensures Refines(o, m, i, Quadrant1(m, i, next), ExpandQuadrant1(i), next)
  {
    hide Funct3, Reg, Full, CjOffset, Imm_11_4_9_8_10_6_7_3_1_5, Fits21, EncodeJ, Decode, Dispatch;
    hide ReadReg, WriteReg, Target;
    FieldsAgree(i);
    JumpOffsetAgrees(i);
    JumpOffsetFits(i);
    JalMeans(o, m, if Funct3(i) == 1 then 1 else 0, CjOffset(i), next);
    RegisterZero(m, next);
  }

  /** C.BEQZ and C.BNEZ. */
  lemma BranchesRefine(o: Oracle, m: Machine, i: bv16, next: bv32)
    requires Funct3(i) == 6 || Funct3(i) == 7
    ensures Refines(o, m, i, Quadrant1(m, i, next), ExpandQuadrant1(i), next)
  {
    hide Funct3, Reg, Full, Creg, Prime, CbOffset, Imm_8_4_3_7_6_2_1_5, Fits13, EncodeB, Decode;
    hide Dispatch, ReadReg, WriteReg, Target, SignedLess;
    FieldsAgree(i);
    BranchOffsetAgrees(i);
    BranchMeans(o, m, if Funct3(i) == 6 then 0 else 1, Creg(i, 7), 0, CbOffset(i), next);
    RegisterZero(m, 0);
  }

  /** A C.LUI that names x0: a HINT in the standard, rejected by the executor. */
  predicate IsLuiHint(i: bv16) {
    Op(i) == 1 && Funct3(i) == 3 && Reg(i, 7) == 0 && Imm6(i) != 0
  }

  lemma LuiGroupRefines(o: Oracle, m: Machine, i: bv16, next: bv32)
    requires Reg(i, 7) == 0 ==> Imm6(i) == 0
    ensures Refines(o, m, i, ExecLuiGroup(m, i, next), ExpandLui(i), next)
  {
    hide Shl, Reg, Full, Imm6, Imm6Extended, Imm_17_16_12, Addi16spImm, Addi16spExtended;
    hide Imm_9_4_6_8_7_5, Fits12;
    hide EncodeI, EncodeU, Decode, Dispatch, ReadReg, WriteReg, ImmResult, Plus, Reserved;
    FieldsAgree(i);
    UpperAgrees(i);
    Addi16spAgrees(i);
    var rd := Reg(i, 7);
    if rd == 2 {
      OpImmMeans(o, m, 2, 0, 2, Addi16spExtended(i), next);
      ImmediateForms(ReadReg(m, 2), Addi16spExtended(i), 0);
    } else {
      LuiMeans(o, m, rd, Imm_17_16_12(i), next);
    }
  }

  lemma ArithmeticGroupRefines(o: Oracle, m: Machine, i: bv16, next: bv32)
    ensures Refines(o, m, i, ExecArithmeticGroup(m, i, next), ExpandArithmetic(i), next)
  {
    hide Creg, Prime, Full, Shamt, Imm6Extended, Imm_5_4_0, Fits12, EncodeI, EncodeR, Decode, Dispatch;
    hide ReadReg, WriteReg, ImmResult, OpResult, Plus, Minus, Xor, Or, And, Shl, Shr, Sra, Reserved;
    FieldsAgree(i);
    Imm6Agrees(i);
    SelectorsAgree(i);
    var rd, rs2, shamt := Creg(i, 7), Creg(i, 2), Shamt(i);
    var x := ReadReg(m, rd);
    var kind := Field(i, 10, 0x3);
    if kind == 0 || kind == 1 {
      ShiftMeans(o, m, rd, 5, rd, shamt, if kind == 0 then 0x00 else 0x20, next);
      ImmediateForms(x, 0, shamt);
      ShiftByZero(x);
      WriteBack(m, rd);
    } else if kind == 2 {
      OpImmMeans(o, m, rd, 7, rd, Imm6Extended(i), next);
      ImmediateForms(x, Imm6Extended(i), 0);
    } else {
      RegisterForms(x, ReadReg(m, rs2));
      OpMeans(o, m, rd, 0, rd, rs2, 0x20, next);
      OpMeans(o, m, rd, 4, rd, rs2, 0x00, next);
      OpMeans(o, m, rd, 6, rd, rs2, 0x00, next);
      OpMeans(o, m, rd, 7, rd, rs2, 0x00, next);
    }
  }

  lemma SelectorsAgree(i: bv16)
    ensures Field(i, 12, 1) == (i >> 12) & 1
    ensures Field(i, 10, 0x3) == (((i >> 10) & 0x3) as bv2) as bv16
    ensures Field(i, 5, 0x3) == (((i >> 5) & 0x3) as bv2) as bv16
  {
  }

  lemma Quadrant1Refines(o: Oracle, m: Machine, i: bv16, next: bv32)
    requires Funct3(i) == 3 && Reg(i, 7) == 0 ==> Imm6(i) == 0
    ensures Refines(o, m, i, Quadrant1(m, i, next), ExpandQuadrant1(i), next)
  {
    hide Funct3, Refines, Quadrant1, ExpandQuadrant1;
    var f := Funct3(i);
    if f == 0 {
      AddiRefines(o, m, i, next);
    } else if f == 1 || f == 5 {
      JumpsRefine(o, m, i, next);
    } else if f == 2 {
      LiRefines(o, m, i, next);
    } else if f == 6 || f == 7 {
      BranchesRefine(o, m, i, next);
    } else {
      Quadrant1Groups(o, m, i, next);
    }
  }

  lemma Quadrant1Groups(o: Oracle, m: Machine, i: bv16, next: bv32)
    requires Funct3(i) == 3 && Reg(i, 7) == 0 ==> Imm6(i) == 0
    requires Funct3(i) == 3 || Funct3(i) == 4
    ensures Refines(o, m, i, Quadrant1(m, i, next), ExpandQuadrant1(i), next)
  {
    hide Funct3, Refines, ExecLuiGroup, ExecArithmeticGroup, ExpandLui, ExpandArithmetic, Reg, Imm6;
    hide Full, WriteReg, Imm6Extended, CjOffset, CbOffset, EncodeI, EncodeJ, EncodeB, Prime, Creg;
    FieldsAgree(i);
    if Funct3(i) == 3 {
      LuiGroupRefines(o, m, i, next);
    } else {
      ArithmeticGroupRefines(o, m, i, next);
    }
  }

  // ---- Quadrant 2 ----

  lemma SlliRefines(o: Oracle, m: Machine, i: bv16, next: bv32)
    requires Funct3(i) == 0
    ensures Refines(o, m, i, Quadrant2(o, m, i, next), ExpandQuadrant2(i), next)
  {
    hide Funct3, Reg, Full, Shamt, EncodeR, Decode, Dispatch, ReadReg, WriteReg, ImmResult, Shl, Reserved;
    FieldsAgree(i);
    SelectorsAgree(i);
    var rd := Reg(i, 7);
    ShiftMeans(o, m, rd, 1, rd, Shamt(i), 0x00, next);
    ImmediateForms(ReadReg(m, rd), 0, Shamt(i));
    ShiftByZero(ReadReg(m, rd));
    RegisterZero(m, Shl(ReadReg(m, rd), Shamt(i)));
    WriteBack(m, rd);
  }

  lemma StackAccessesRefine(o: Oracle, m: Machine, i: bv16, next: bv32)
    requires Funct3(i) != 0 && Funct3(i) != 4
    ensures Refines(o, m, i, Quadrant2(o, m, i, next), ExpandQuadrant2(i), next)
  {
    hide Funct3, Reg, Full, Shamt, CiWordSpOffset, CiDoubleSpOffset, CssWordSpOffset, CssDoubleSpOffset;
    hide Uimm_5_4_2_7_6, Uimm_5_4_3_8_6, Uimm_5_2_7_6, Uimm_5_3_8_6, ExecJumpGroup, ExpandJump;
    hide Fits12, EncodeI, EncodeS, EncodeR, Decode, Dispatch, ReadReg, WriteReg, ReadFreg, SetFreg;
    hide WriteF64, Boxed, LowWord, Address;
    hide Get32, GetDouble, Put32, PutDouble, Reserved, Field, Shl;
    FieldsAgree(i);
    CiWordSpAgrees(i);
    CiDoubleSpAgrees(i);
    CssWordSpAgrees(i);
    CssDoubleSpAgrees(i);
    var f, rd, rs2 := Funct3(i), Reg(i, 7), Reg(i, 2);
    if f == 1 {
      LoadDoubleMeans(o, m, rd, 2, CiDoubleSpOffset(i), next);
    } else if f == 2 {
      LoadWordMeans(o, m, rd, 2, CiWordSpOffset(i), next);
    } else if f == 3 {
      LoadFloatMeans(o, m, rd, 2, CiWordSpOffset(i), next);
    } else if f == 5 {
      StoreDoubleMeans(o, m, 2, rs2, CssDoubleSpOffset(i), next);
    } else if f == 6 {
      StoreWordMeans(o, m, 2, rs2, CssWordSpOffset(i), next);
    } else {
      StoreFloatMeans(o, m, 2, rs2, CssWordSpOffset(i), next);
    }
  }

  lemma JumpGroupRefines(o: Oracle, m: Machine, i: bv16, next: bv32)
    ensures Refines(o, m, i, ExecJumpGroup(m, i, next), ExpandJump(i), next)
  {
    hide Reg, Full, Fits12, EncodeI, EncodeR, Decode, Dispatch, ReadReg, WriteReg, OpResult, Plus, Even;
    hide Reserved;
    FieldsAgree(i);
    SelectorsAgree(i);
    var rd, rs2 := Reg(i, 7), Reg(i, 2);
    RegisterZero(m, next);
    if rs2 == 0 {
      ZeroFits();
      AddZero(ReadReg(m, rd));
      JalrMeans(o, m, if Field(i, 12, 1) == 0 then 0 else 1, rd, 0, next);
      EbreakMeans(o, m, next);
    } else if Field(i, 12, 1) == 0 {
      OpMeans(o, m, rd, 0, 0, rs2, 0x00, next);
      RegisterForms(ReadReg(m, 0), ReadReg(m, rs2));
      AddZero(ReadReg(m, rs2));
      RegisterZero(m, ReadReg(m, rs2));
    } else {
      OpMeans(o, m, rd, 0, rd, rs2, 0x00, next);
      RegisterForms(ReadReg(m, rd), ReadReg(m, rs2));
      RegisterZero(m, Plus(ReadReg(m, rd), ReadReg(m, rs2)));
    }
  }

  lemma ZeroFits()
    ensures Fits12(0)
  {
  }

  lemma Quadrant2Refines(o: Oracle, m: Machine, i: bv16, next: bv32)
    ensures Refines(o, m, i, Quadrant2(o, m, i, next), ExpandQuadrant2(i), next)
  {
    hide Funct3, Refines, Quadrant2, ExpandQuadrant2;
    if Funct3(i) == 0 {
      SlliRefines(o, m, i, next);
    } else if Funct3(i) == 4 {
      Quadrant2Jumps(o, m, i, next);
    } else {
      StackAccessesRefine(o, m, i, next);
    }
  }

  lemma Quadrant2Jumps(o: Oracle, m: Machine, i: bv16, next: bv32)
    requires Funct3(i) == 4
    ensures Refines(o, m, i, Quadrant2(o, m, i, next), ExpandQuadrant2(i), next)
  {
    hide Funct3, Reg, Full, Refines, ExecJumpGroup, ExpandJump, EncodeI, EncodeS, EncodeR, WriteReg;
    hide GetDouble, Get32, PutDouble, Put32;
    FieldsAgree(i);
    JumpGroupRefines(o, m, i, next);
  }

  // ---- The theorems ----

  /** Every arm of the 16-bit executor is the base instruction it stands for, except on a C.LUI hint. */
  lemma Arm16Refines(o: Oracle, m: Machine, i: bv16, next: bv32)
    requires !IsLuiHint(i)
    ensures Refines(o, m, i, Arm16(o, m, i, next), Expand(i), next)
  {
    hide Refines, Op, Funct3, Reg, Imm6, Quadrant0, Quadrant1, Quadrant2, ExpandQuadrant0;
    hide ExpandQuadrant1, ExpandQuadrant2, Reserved;
    FieldsAgree(i);
    if Op(i) == 0 {
      Quadrant0Refines(o, m, i, next);
    } else if Op(i) == 1 {
      Quadrant1Refines(o, m, i, next);
    } else if Op(i) == 2 {
      Quadrant2Refines(o, m, i, next);
    } else {
      NoExpansionRefines(o, m, i, next);
    }
  }

  lemma NoExpansionRefines(o: Oracle, m: Machine, i: bv16, next: bv32)
    ensures Refines(o, m, i, Reserved(m, i), None, next)
  {
  }

  /**
   * Compressed execution preserves base-ISA meaning: for every machine and every
   * halfword that is not a C.LUI hint, the executor faults exactly when the
   * standard gives no expansion, leaving the machine alone, and otherwise does
   * what the expansion does, as an instruction two bytes long.
   */
  lemma CompressedRefinesBase(o: Oracle, m: Machine, i: bv16)
    requires !IsLuiHint(i)
    ensures Expand(i).None? ==> Execute16(o, m, i) == Err(m, IllegalInstruction(m.pc, i as bv32))
    ensures Expand(i).Some? ==>
              Execute16(o, m, i).Ok? && Execute16(o, m, i) == Base(o, m, Expand(i).value, Plus(m.pc, 2))
  {
    hide Expand, Arm16, Dispatch, Decode, IsLuiHint;
    Arm16Refines(o, m, i, Plus(m.pc, 2));
  }

  /** What the standard asks of a halfword: run its expansion, or reject it. */
  function Standard16(o: Oracle, m: Machine, i: bv16): Outcome {
    match Expand(i)
    case None => Err(m, IllegalInstruction(m.pc, i as bv32))
    case Some(raw) => Base(o, m, raw, Plus(m.pc, 2))
  }

  lemma LuiHintExpansion(i: bv16)
    requires IsLuiHint(i)
    ensures Expand(i) == Some(EncodeU(OP_LUI, 0, Imm_17_16_12(i))) && Imm_17_16_12(i) & 0xFFF == 0
  {
    hide Op, Funct3, Reg, Full, Imm6, Imm_17_16_12, EncodeU, ExpandQuadrant0, ExpandQuadrant2;
    hide ExpandArithmetic, EncodeI, EncodeJ, EncodeB, Prime;
    FieldsAgree(i);
    UpperAgrees(i);
  }

  lemma LuiHintArm(o: Oracle, m: Machine, i: bv16, next: bv32)
    requires IsLuiHint(i)
    ensures Arm16(o, m, i, next) == Reserved(m, i)
  {
    hide Op, Funct3, Reg, Imm6, Quadrant0, Quadrant2, ExecArithmeticGroup, CjOffset, CbOffset;
    hide Imm6Extended, Shl, WriteReg, ReadReg, Address, Target, Creg, Addi16spImm;
  }

  /** A C.LUI hint expands to an instruction without effect, and the executor rejects it. */
  lemma LuiHintRejected(o: Oracle, m: Machine, i: bv16)
    requires IsLuiHint(i)
    ensures Standard16(o, m, i) == Ok(m.(pc := Plus(m.pc, 2)))
    ensures Execute16(o, m, i) == Err(m, IllegalInstruction(m.pc, i as bv32))
  {
    hide IsLuiHint, Expand, Arm16, EncodeU, Decode, Dispatch, WriteReg, ReadReg, Imm_17_16_12;
    LuiHintExpansion(i);
    LuiHintArm(o, m, i, Plus(m.pc, 2));
    var next := Plus(m.pc, 2);
    LuiMeans(o, m, 0, Imm_17_16_12(i), next);
    RegisterZero(m, Imm_17_16_12(i));
    assert Base(o, m, EncodeU(OP_LUI, 0, Imm_17_16_12(i)), next) == Ok(m.(pc := next));
  }

  /** The 16-bit executor does what the standard asks exactly when the halfword is not a C.LUI hint. */
  lemma StandardExactlyOffHints(o: Oracle, m: Machine, i: bv16)
    ensures Execute16(o, m, i) == Standard16(o, m, i) <==> !IsLuiHint(i)
  {
    hide IsLuiHint, Execute16, Base, Expand;
    if IsLuiHint(i) {
      LuiHintRejected(o, m, i);
    } else {
      CompressedRefinesBase(o, m, i);
    }
  }

  /** C.LUI x0, 1 is such a halfword. */
  lemma LuiHintExample(o: Oracle, m: Machine)
    ensures Expand(0x6005).Some? && Execute16(o, m, 0x6005).Err?
  {
    hide Execute16, Decode, Dispatch, Standard16;
    assert IsLuiHint(0x6005);
    LuiHintRejected(o, m, 0x6005);
    assert Standard16(o, m, 0x6005).Ok?;
  }

  // ---- Only the length differs ----

  /**
   * The arms of one instruction placed before `a` and before `b`: same machine, and
   * the same next pc unless it falls through.
   */
  predicate SameButLength(x: Arm, y: Arm, a: bv32, b: bv32) {
    match x
    case Fault(_, _) => y == x
    case Done(m, next) => y.Done? && y.m == m && (y.next == next || (next == a && y.next == b))
  }

  lemma PlainArmsFallThrough(o: Oracle, m: Machine, d: Inst32, a: bv32, b: bv32)
    ensures SameButLength(ExecLoad(o, m, d, a), ExecLoad(o, m, d, b), a, b)
    ensures SameButLength(ExecStore(m, d, a), ExecStore(m, d, b), a, b)
    ensures SameButLength(ExecBranch(m, d, a), ExecBranch(m, d, b), a, b)
  {
    hide Get8, Get16, Get32, Put8, Put16, Put32, ReadReg, WriteReg, LowHalf, LowByte, Address, Target;
    hide IImm, SImm, BImm, Compare;
    hide SignExtend8, SignExtend16, ZeroExtend8, ZeroExtend16;
  }

  lemma RegisterArmsFallThrough(m: Machine, d: Inst32, a: bv32, b: bv32)
    ensures SameButLength(ExecOpImm(m, d, a), ExecOpImm(m, d, b), a, b)
    ensures SameButLength(ExecOp(m, d, a), ExecOp(m, d, b), a, b)
    ensures SameButLength(ExecMulDiv(m, d, a), ExecMulDiv(m, d, b), a, b)
  {
    hide ReadReg, WriteReg, IImm, ImmResult, OpResult, MulDiv, IsOp;
  }

  lemma FloatArmsFallThrough(o: Oracle, m: Machine, d: Inst32, a: bv32, b: bv32)
    ensures SameButLength(ExecLoadFp(o, m, d, a), ExecLoadFp(o, m, d, b), a, b)
    ensures SameButLength(ExecStoreFp(m, d, a), ExecStoreFp(m, d, b), a, b)
    ensures SameButLength(ExecFpu(o, m, d, a), ExecFpu(o, m, d, b), a, b)
  {
    hide Get32, GetDouble, Put32, PutDouble, ReadReg, WriteReg, ReadFreg, SetFreg, WriteF64, Boxed;
    hide LowWord, Address, IImm, SImm, Operands;
  }

  lemma AmoArmFallsThrough(o: Oracle, m: Machine, d: Inst32, a: bv32, b: bv32)
    ensures SameButLength(ExecAmo(o, m, d, a), ExecAmo(o, m, d, b), a, b)
  {
    hide Get32, Put32, ReadReg, WriteReg, Funct5, IsAmo, AmoValue;
  }

  lemma EcallArmFallsThrough(o: Oracle, m: Machine, a: bv32, b: bv32)
    ensures SameButLength(ExecEcall(o, m, a), ExecEcall(o, m, b), a, b)
  {
    hide Args, Record, SysWrite, SysRead, SysBrk, WriteReg;
  }

  lemma SystemArmFallsThrough(o: Oracle, m: Machine, d: Inst32, a: bv32, b: bv32)
    ensures SameButLength(ExecSystem(o, m, d, a), ExecSystem(o, m, d, b), a, b)
  {
    hide ExecEcall, CsrNumber, CsrResult, SetCsr, GetCsr, WriteReg, ReadReg;
    EcallArmFallsThrough(o, m, a, b);
  }

  /** The instruction writes a return address. */
  predicate Links(d: Inst32) { d.opcode == OP_JAL || d.opcode == OP_JALR }

  lemma UpperArmFallsThrough(m: Machine, d: Inst32, a: bv32, b: bv32)
    requires !Links(d)
    requires d.opcode == OP_LUI || d.opcode == OP_AUIPC
    ensures SameButLength(ExecUpper(m, d, a), ExecUpper(m, d, b), a, b)
  {
    hide WriteReg, Target, UImm;
  }

  lemma FallThroughOnly(o: Oracle, m: Machine, d: Inst32, a: bv32, b: bv32)
    requires !Links(d)
    ensures SameButLength(Dispatch(o, m, d, a), Dispatch(o, m, d, b), a, b)
  {
    hide ExecOp, ExecMulDiv, ExecUpper, ExecBranch, ExecLoad, ExecStore, ExecOpImm;
    hide ExecLoadFp, ExecStoreFp, ExecSystem, ExecAmo, ExecFpu, SameButLength;
    PlainArmsFallThrough(o, m, d, a, b);
    RegisterArmsFallThrough(m, d, a, b);
    FloatArmsFallThrough(o, m, d, a, b);
    AmoArmFallsThrough(o, m, d, a, b);
    SystemArmFallsThrough(o, m, d, a, b);
    IdleArmsFallThrough(m, d, a, b);
    if d.opcode == OP_LUI || d.opcode == OP_AUIPC {
      UpperArmFallsThrough(m, d, a, b);
    }
  }

  lemma IdleArmsFallThrough(m: Machine, d: Inst32, a: bv32, b: bv32)
    ensures SameButLength(Done(m, a), Done(m, b), a, b)
    ensures var fault := Fault(m, UnknownOpcode(m.pc, d.opcode)); SameButLength(fault, fault, a, b)
  {
  }

  lemma LinkOnly(o: Oracle, m: Machine, d: Inst32, a: bv32, b: bv32)
    requires Links(d)
    ensures var x, y := Dispatch(o, m, d, a), Dispatch(o, m, d, b);
            x.Done? && y.Done? && y.next == x.next && x.m == WriteReg(m, d.rd, a) && y.m == WriteReg(m, d.rd, b)
  {
    hide Dispatch, WriteReg, ReadReg, Target, Address, Even, JImm, IImm, UImm;
    RouteUpper(o, m, d, a);
    RouteUpper(o, m, d, b);
  }

  lemma Relink(m: Machine, rd: bv5, a: bv32, b: bv32, next: bv32)
    ensures WriteReg(m, rd, b).(pc := next) == WriteReg(WriteReg(m, rd, a).(pc := next), rd, b)
  {
    if rd != 0 {
      assert m.regs[rd as int := a][rd as int := b] == m.regs[rd as int := b];
    }
  }

  /**
   * Placing any 32-bit encoding before `b` instead of `a` changes the fall-through pc
   * and the link value, and nothing else.
   */
  lemma OnlyLengthDiffers(o: Oracle, m: Machine, raw: bv32, a: bv32, b: bv32)
    ensures var x, y := Base(o, m, raw, a), Base(o, m, raw, b);
            if x.Err? then y == x
            else
              && y.Ok?
              && (y.m.pc == x.m.pc || (x.m.pc == a && y.m.pc == b && !Links(Decode(raw))))
              && y.m.(pc := x.m.pc) == if Links(Decode(raw)) then WriteReg(x.m, Decode(raw).rd, b) else x.m
  {
    hide Dispatch, Decode, WriteReg;
    var d := Decode(raw);
    if Links(d) {
      LinkOnly(o, m, d, a, b);
      Relink(m, d.rd, a, b, Dispatch(o, m, d, a).next);
    } else {
      FallThroughOnly(o, m, d, a, b);
    }
  }

  /**
   * The 16-bit executor against the 32-bit executor itself, on the expansion: both
   * succeed, and the machines they leave are equal except that a fall-through goes
   * two bytes on instead of four and a link register holds the address two bytes on.
   */
  lemma CompressedMatchesExpansion(o: Oracle, m: Machine, i: bv16)
    requires !IsLuiHint(i) && Expand(i).Some?
    ensures var raw := Expand(i).value;
            var c, w := Execute16(o, m, i), Execute32(o, m, raw);
            && c.Ok? && w.Ok?
            && (c.m.pc == w.m.pc || (c.m.pc == Plus(m.pc, 2) && w.m.pc == Plus(m.pc, 4)))
            && c.m.(pc := w.m.pc) == if Links(Decode(raw)) then WriteReg(w.m, Decode(raw).rd, Plus(m.pc, 2)) else w.m
  {
    hide Expand, IsLuiHint, Execute16, Base, Decode, WriteReg, Plus;
    CompressedRefinesBase(o, m, i);
    OnlyLengthDiffers(o, m, Expand(i).value, Plus(m.pc, 4), Plus(m.pc, 2));
  }
}
