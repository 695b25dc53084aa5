/** 32-bit instruction fields, immediates and major opcodes. */
module Instructions {
  import opened Bits

  const OP_LUI: bv7 := 0x37
  const OP_AUIPC: bv7 := 0x17
  const OP_JAL: bv7 := 0x6F
  const OP_JALR: bv7 := 0x67
  const OP_BRANCH: bv7 := 0x63
  const OP_LOAD: bv7 := 0x03
  const OP_STORE: bv7 := 0x23
  const OP_IMM: bv7 := 0x13
  const OP_OP: bv7 := 0x33
  const OP_MISC_MEM: bv7 := 0x0F
  const OP_SYSTEM: bv7 := 0x73
  const OP_AMO: bv7 := 0x2F
  const OP_LOAD_FP: bv7 := 0x07
  const OP_STORE_FP: bv7 := 0x27
  const OP_MADD: bv7 := 0x43
  const OP_MSUB: bv7 := 0x47
  const OP_NMSUB: bv7 := 0x4B
  const OP_NMADD: bv7 := 0x4F
  const OP_OP_FP: bv7 := 0x53

  datatype Inst32 = Inst32(
    raw: bv32,
    opcode: bv7,
    rd: bv5,
    rs1: bv5,
    rs2: bv5,
    rs3: bv5,
    funct3: bv3,
    funct7: bv7)

  function Decode(raw: bv32): Inst32 {
    Inst32(raw,
           (raw & 0x7F) as bv7,
           ((raw >> 7) & 0x1F) as bv5,
           ((raw >> 15) & 0x1F) as bv5,
           ((raw >> 20) & 0x1F) as bv5,
           ((raw >> 27) & 0x1F) as bv5,
           ((raw >> 12) & 0x7) as bv3,
           ((raw >> 25) & 0x7F) as bv7)
  }

  lemma DecodeKeepsRaw(raw: bv32)
    ensures Decode(raw).raw == raw
  {
  }

  function IImm(raw: bv32): bv32 { Sra(raw, 20) }

  function SBits(raw: bv32): bv32 {
    var imm11_5 := (raw >> 25) & 0x7F;
    var imm4_0 := (raw >> 7) & 0x1F;
    (imm11_5 << 5) | imm4_0
  }

  function SImm(raw: bv32): bv32 { Sra(Shl(SBits(raw), 20), 20) }

  function BBits(raw: bv32): bv32 {
    var imm12 := (raw >> 31) & 1;
    var imm10_5 := (raw >> 25) & 0x3F;
    var imm4_1 := (raw >> 8) & 0xF;
    var imm11 := (raw >> 7) & 1;
    (imm12 << 12) | (imm11 << 11) | (imm10_5 << 5) | (imm4_1 << 1)
  }

  function BImm(raw: bv32): bv32 { Sra(Shl(BBits(raw), 19), 19) }

  function UImm(raw: bv32): bv32 { raw & 0xFFFF_F000 }

  function JBits(raw: bv32): bv32 {
    var imm20 := (raw >> 31) & 1;
    var imm10_1 := (raw >> 21) & 0x3FF;
    var imm11 := (raw >> 20) & 1;
    var imm19_12 := (raw >> 12) & 0xFF;
    (imm20 << 20) | (imm19_12 << 12) | (imm11 << 11) | (imm10_1 << 1)
  }

  function JImm(raw: bv32): bv32 { Sra(Shl(JBits(raw), 11), 11) }
}
