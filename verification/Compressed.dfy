/**
 * The 16-bit executor. It has its own immediates and its own arms and never goes
 * through the 32-bit decoder.
 */
module Compressed {
  import opened Bits
  import opened HostImports
  import opened Machine

  /** `inst.shift_then_mask(shift, mask)`. */
  function Field(inst: bv16, shift: bv4, mask: bv16): bv16 { (inst >> shift) & mask }

  function Op(inst: bv16): bv2 { (inst & 0x3) as bv2 }
  function Funct3(inst: bv16): bv3 { (inst >> 13) as bv3 }

  /** Register number of a 3-bit field: one of x8..x15. */
  function Creg(inst: bv16, shift: bv4): bv5 { (Field(inst, shift, 0x7) + 8) as bv5 }

  /** A full 5-bit register field. */
  function Reg(inst: bv16, shift: bv4): bv5 { Field(inst, shift, 0x1F) as bv5 }

  function ClWordOffset(inst: bv16): bv32 {
    ((Field(inst, 10, 0x7) as bv32) << 3) | ((Field(inst, 6, 0x1) as bv32) << 2) | ((Field(inst, 5, 0x1) as bv32) << 6)
  }

  function ClDoubleOffset(inst: bv16): bv32 {
    ((Field(inst, 10, 0x7) as bv32) << 3) | ((Field(inst, 5, 0x3) as bv32) << 6)
  }

  function CiWordSpOffset(inst: bv16): bv32 {
    ((Field(inst, 12, 0x1) as bv32) << 5) | ((Field(inst, 4, 0x7) as bv32) << 2) | ((Field(inst, 2, 0x3) as bv32) << 6)
  }

  function CiDoubleSpOffset(inst: bv16): bv32 {
    ((Field(inst, 12, 0x1) as bv32) << 5) | ((Field(inst, 5, 0x3) as bv32) << 3) | ((Field(inst, 2, 0x7) as bv32) << 6)
  }

  function CssWordSpOffset(inst: bv16): bv32 {
    ((Field(inst, 9, 0xF) as bv32) << 2) | ((Field(inst, 7, 0x3) as bv32) << 6)
  }

  function CssDoubleSpOffset(inst: bv16): bv32 {
    ((Field(inst, 10, 0x7) as bv32) << 3) | ((Field(inst, 7, 0x7) as bv32) << 6)
  }

  function Addi4spnImm(inst: bv16): bv32 {
    (Field(inst, 7, 0x30) | Field(inst, 1, 0x3C0) | Field(inst, 4, 0x4) | Field(inst, 2, 0x8)) as bv32
  }

  function Imm6(inst: bv16): bv16 { (Field(inst, 12, 1) << 5) | Field(inst, 2, 0x1F) }

  function Imm6Extended(inst: bv16): bv32 { SignExtend16(Sra16(Imm6(inst) << 10, 10)) }

  function Addi16spImm(inst: bv16): bv16 {
    (Field(inst, 12, 1) << 9) | (Field(inst, 3, 3) << 7) | (Field(inst, 5, 1) << 6)
    | (Field(inst, 2, 1) << 5) | (Field(inst, 6, 1) << 4)
  }

  function Addi16spExtended(inst: bv16): bv32 { SignExtend16(Sra16(Addi16spImm(inst) << 6, 6)) }

  function CjImm(inst: bv16): bv16 {
    (Field(inst, 12, 1) << 11) | (Field(inst, 8, 1) << 10) | (Field(inst, 9, 3) << 8)
    | (Field(inst, 6, 1) << 7) | (Field(inst, 7, 1) << 6) | (Field(inst, 2, 1) << 5)
    | (Field(inst, 11, 1) << 4) | (Field(inst, 3, 7) << 1)
  }

  /** Offset of C.J and C.JAL. */
  function CjOffset(inst: bv16): bv32 { SignExtend16(Sra16(CjImm(inst) << 4, 4)) }

  function CbImm(inst: bv16): bv16 {
    (Field(inst, 12, 1) << 8) | (Field(inst, 5, 3) << 6) | (Field(inst, 2, 1) << 5)
    | (Field(inst, 10, 3) << 3) | (Field(inst, 3, 3) << 1)
  }

  /** Offset of C.BEQZ and C.BNEZ. */
  function CbOffset(inst: bv16): bv32 { SignExtend16(Sra16(CbImm(inst) << 7, 7)) }

  function Shamt(inst: bv16): bv5 { Field(inst, 2, 0x1F) as bv5 }

  function Reserved(m: Machine, inst: bv16): Arm { Illegal(m, inst as bv32) }

  // ---- Quadrant 0 ----

  function Quadrant0(o: Oracle, m: Machine, inst: bv16, next: bv32): Arm {
    var f := Funct3(inst);
    var low := Creg(inst, 2);
    var base := Creg(inst, 7);
    if f == 0 then
      if Addi4spnImm(inst) == 0 then Reserved(m, inst)
      else Done(WriteReg(m, low, Address(m, 2, Addi4spnImm(inst))), next)
    else if f == 1 then
      var r := GetDouble(o, m, Address(m, base, ClDoubleOffset(inst)));
      Done(WriteF64(r.m, low, r.val), next)
    else if f == 2 then
      var r := Get32(o, m, Address(m, base, ClWordOffset(inst)));
      Done(WriteReg(r.m, low, r.val), next)
    else if f == 3 then
      var r := Get32(o, m, Address(m, base, ClWordOffset(inst)));
      Done(SetFreg(r.m, low, Boxed(r.val)), next)
    else if f == 5 then
      Done(PutDouble(m, Address(m, base, ClDoubleOffset(inst)), ReadFreg(m, low)), next)
    else if f == 6 then
      Done(Put32(m, Address(m, base, ClWordOffset(inst)), ReadReg(m, low)), next)
    else if f == 7 then
      Done(Put32(m, Address(m, base, ClWordOffset(inst)), LowWord(ReadFreg(m, low))), next)
    else Reserved(m, inst)
  }

  // ---- Quadrant 1 ----

  function ExecLuiGroup(m: Machine, inst: bv16, next: bv32): Arm {
    var rd := Reg(inst, 7);
    if rd == 2 then
      if Addi16spImm(inst) == 0 then Reserved(m, inst)
      else Done(WriteReg(m, 2, Address(m, 2, Addi16spExtended(inst))), next)
    else if rd != 0 then
      if Imm6(inst) == 0 then Reserved(m, inst)
      else Done(WriteReg(m, rd, Shl(Imm6Extended(inst), 12)), next)
    else Reserved(m, inst)
  }

  function ExecArithmeticGroup(m: Machine, inst: bv16, next: bv32): Arm {
    var rd := Creg(inst, 7);
    var bit12 := Field(inst, 12, 1);
    var kind := Field(inst, 10, 0x3);
    var src := ReadReg(m, rd);
    if kind == 0 || kind == 1 then
      if bit12 != 0 then Reserved(m, inst)
      else if Shamt(inst) != 0 then
        Done(WriteReg(m, rd, if kind == 0 then Shr(src, Shamt(inst)) else Sra(src, Shamt(inst))), next)
      else Done(m, next)
    else if kind == 2 then
      Done(WriteReg(m, rd, And(src, Imm6Extended(inst))), next)
    else if bit12 != 0 then Reserved(m, inst)
    else
      var src2 := ReadReg(m, Creg(inst, 2));
      var which := Field(inst, 5, 0x3);
      var val := if which == 0 then Minus(src, src2)
                 else if which == 1 then Xor(src, src2)
                 else if which == 2 then Or(src, src2)
                 else And(src, src2);
      Done(WriteReg(m, rd, val), next)
  }

  function Quadrant1(m: Machine, inst: bv16, next: bv32): Arm {
    var f := Funct3(inst);
    var rd := Reg(inst, 7);
    if f == 0 then
      if rd != 0 && Imm6Extended(inst) != 0 then Done(WriteReg(m, rd, Address(m, rd, Imm6Extended(inst))), next)
      else Done(m, next)
    else if f == 1 then Done(WriteReg(m, 1, next), Target(m, CjOffset(inst)))
    else if f == 2 then Done(WriteReg(m, rd, Imm6Extended(inst)), next)
    else if f == 3 then ExecLuiGroup(m, inst, next)
    else if f == 4 then ExecArithmeticGroup(m, inst, next)
    else if f == 5 then Done(m, Target(m, CjOffset(inst)))
    else if f == 6 then
      Done(m, if ReadReg(m, Creg(inst, 7)) == 0 then Target(m, CbOffset(inst)) else next)
    else
      Done(m, if ReadReg(m, Creg(inst, 7)) != 0 then Target(m, CbOffset(inst)) else next)
  }

  // ---- Quadrant 2 ----

  function ExecJumpGroup(m: Machine, inst: bv16, next: bv32): Arm {
    var rd := Reg(inst, 7);
    var rs2 := Reg(inst, 2);
    var bit12 := Field(inst, 12, 1);
    if bit12 == 0 && rs2 == 0 then
      if rd == 0 then Reserved(m, inst) else Done(m, Even(ReadReg(m, rd)))
    else if bit12 == 0 then
      Done(if rd != 0 then WriteReg(m, rd, ReadReg(m, rs2)) else m, next)
    else if rd == 0 && rs2 == 0 then Done(m.(halted := true), next)
    else if rs2 == 0 then Done(WriteReg(m, 1, next), Even(ReadReg(m, rd)))
    else
      Done(if rd != 0 then WriteReg(m, rd, Plus(ReadReg(m, rd), ReadReg(m, rs2))) else m, next)
  }

  function Quadrant2(o: Oracle, m: Machine, inst: bv16, next: bv32): Arm {
    var f := Funct3(inst);
    var rd := Reg(inst, 7);
    var rs2 := Reg(inst, 2);
    if f == 0 then
      if Field(inst, 12, 1) != 0 then Reserved(m, inst)
      else if rd != 0 && Shamt(inst) != 0 then Done(WriteReg(m, rd, Shl(ReadReg(m, rd), Shamt(inst))), next)
      else Done(m, next)
    else if f == 1 then
      var r := GetDouble(o, m, Address(m, 2, CiDoubleSpOffset(inst)));
      Done(WriteF64(r.m, rd, r.val), next)
    else if f == 2 then
      if rd == 0 then Reserved(m, inst)
      else
        var r := Get32(o, m, Address(m, 2, CiWordSpOffset(inst)));
        Done(WriteReg(r.m, rd, r.val), next)
    else if f == 3 then
      var r := Get32(o, m, Address(m, 2, CiWordSpOffset(inst)));
      Done(SetFreg(r.m, rd, Boxed(r.val)), next)
    else if f == 4 then ExecJumpGroup(m, inst, next)
    else if f == 5 then Done(PutDouble(m, Address(m, 2, CssDoubleSpOffset(inst)), ReadFreg(m, rs2)), next)
    else if f == 6 then Done(Put32(m, Address(m, 2, CssWordSpOffset(inst)), ReadReg(m, rs2)), next)
    else Done(Put32(m, Address(m, 2, CssWordSpOffset(inst)), LowWord(ReadFreg(m, rs2))), next)
  }

  function Arm16(o: Oracle, m: Machine, inst: bv16, next: bv32): Arm {
    if Op(inst) == 0 then Quadrant0(o, m, inst, next)
    else if Op(inst) == 1 then Quadrant1(m, inst, next)
    else if Op(inst) == 2 then Quadrant2(o, m, inst, next)
    else Reserved(m, inst)
  }

  function Execute16(o: Oracle, m: Machine, inst: bv16): Outcome {
    Commit(Arm16(o, m, inst, Plus(m.pc, 2)))
  }
}
