/**
 * The register instructions as the executor performs them on their encodings, on
 * numbers and bits: what ends up in rd for the two source registers, and that
 * nothing else changes but the pc.
 */
module Integers {
  import opened Bits
  import opened HostImports
  import opened Instructions
  import opened Machine
  import opened Formats
  import opened Multiply
  import opened Arithmetic

  /** A register-register encoding. */
  function Reg3(funct7: bv7, funct3: bv3, rd: bv5, rs1: bv5, rs2: bv5): bv32 {
    EncodeR(OP_OP, rd, funct3, rs1, rs2, funct7)
  }

  /** The encoding writes `v` to `rd` and falls through, and that is all. */
  predicate Yields(o: Oracle, m: Machine, raw: bv32, rd: bv5, v: bv32) {
    Execute32(o, m, raw) == Ok(WriteReg(m, rd, v).(pc := Plus(m.pc, 4)))
  }

  lemma OpYields(o: Oracle, m: Machine, funct7: bv7, funct3: bv3, rd: bv5, rs1: bv5, rs2: bv5)
    requires IsOp(funct7, funct3)
    ensures Yields(o, m, Reg3(funct7, funct3, rd, rs1, rs2), rd,
                   OpResult(funct7, funct3, ReadReg(m, rs1), ReadReg(m, rs2)))
  {
    hide Dispatch, Decode, EncodeR, ReadReg, WriteReg, OpResult, Plus, IsOp;
    OpMeans(o, m, rd, funct3, rs1, rs2, funct7, Plus(m.pc, 4));
  }

  /** ADD, SUB, SLT and SLTU. */
  lemma SumsAndComparisons(o: Oracle, m: Machine, rd: bv5, rs1: bv5, rs2: bv5)
    ensures exists sum: bv32, difference: bv32 ::
              && Yields(o, m, Reg3(0x00, 0, rd, rs1, rs2), rd, sum)
              && Value(sum) == (Value(ReadReg(m, rs1)) + Value(ReadReg(m, rs2))) % WORD
              && Yields(o, m, Reg3(0x20, 0, rd, rs1, rs2), rd, difference)
              && Value(difference) == (Value(ReadReg(m, rs1)) - Value(ReadReg(m, rs2))) % WORD
    ensures Yields(o, m, Reg3(0x00, 2, rd, rs1, rs2), rd,
                   if Signed(ReadReg(m, rs1)) < Signed(ReadReg(m, rs2)) then 1 else 0)
    ensures Yields(o, m, Reg3(0x00, 3, rd, rs1, rs2), rd,
                   if Value(ReadReg(m, rs1)) < Value(ReadReg(m, rs2)) then 1 else 0)
  {
    OpsExist();
    hide Yields, OpResult, ReadReg, Value, Signed, IsOp, ImmResult, Reg3;
    var a, b := ReadReg(m, rs1), ReadReg(m, rs2);
    OpYields(o, m, 0x00, 0, rd, rs1, rs2);
    OpYields(o, m, 0x20, 0, rd, rs1, rs2);
    OpYields(o, m, 0x00, 2, rd, rs1, rs2);
    OpYields(o, m, 0x00, 3, rd, rs1, rs2);
    AddSubMean(a, b);
    SetLessMean(a, b);
  }

  lemma OpsExist()
    ensures forall f: bv3 :: IsOp(0x00, f)
    ensures IsOp(0x20, 0) && IsOp(0x20, 5)
  {
  }

  /** SLL, SRL and SRA, by the low five bits of rs2. */
  lemma Shifts(o: Oracle, m: Machine, rd: bv5, rs1: bv5, rs2: bv5)
    ensures var a, n := ReadReg(m, rs1), Pow2(Amount(ShiftAmount(ReadReg(m, rs2))));
            exists left: bv32, right: bv32, arithmetic: bv32 ::
              && Yields(o, m, Reg3(0x00, 1, rd, rs1, rs2), rd, left) && Value(left) == (Value(a) * n) % WORD
              && Yields(o, m, Reg3(0x00, 5, rd, rs1, rs2), rd, right) && Value(right) == Value(a) / n
              && Yields(o, m, Reg3(0x20, 5, rd, rs1, rs2), rd, arithmetic) && Signed(arithmetic) == Signed(a) / n
  {
    OpsExist();
    hide Yields, OpResult, ReadReg, Value, Signed, IsOp, ImmResult, Reg3, Amount, ShiftAmount;
    OpYields(o, m, 0x00, 1, rd, rs1, rs2);
    OpYields(o, m, 0x00, 5, rd, rs1, rs2);
    OpYields(o, m, 0x20, 5, rd, rs1, rs2);
    ShiftsMean(ReadReg(m, rs1), ReadReg(m, rs2));
  }

  /** XOR, OR and AND, bit by bit. */
  lemma BitOperations(o: Oracle, m: Machine, rd: bv5, rs1: bv5, rs2: bv5, k: nat)
    ensures var a, b := ReadReg(m, rs1), ReadReg(m, rs2);
            exists x: bv32, y: bv32, z: bv32 ::
              && Yields(o, m, Reg3(0x00, 4, rd, rs1, rs2), rd, x) && (BitAt(x, k) <==> BitAt(a, k) != BitAt(b, k))
              && Yields(o, m, Reg3(0x00, 6, rd, rs1, rs2), rd, y) && (BitAt(y, k) <==> BitAt(a, k) || BitAt(b, k))
              && Yields(o, m, Reg3(0x00, 7, rd, rs1, rs2), rd, z) && (BitAt(z, k) <==> BitAt(a, k) && BitAt(b, k))
  {
    OpsExist();
    hide Yields, OpResult, ReadReg, IsOp, ImmResult, Reg3, BitAt;
    OpYields(o, m, 0x00, 4, rd, rs1, rs2);
    OpYields(o, m, 0x00, 6, rd, rs1, rs2);
    OpYields(o, m, 0x00, 7, rd, rs1, rs2);
    LogicMeans(ReadReg(m, rs1), ReadReg(m, rs2), k);
  }

  /** An immediate encoding, and an immediate shift. */
  function Imm(funct3: bv3, rd: bv5, rs1: bv5, imm: bv32): bv32 { EncodeI(OP_IMM, rd, funct3, rs1, imm) }
  function ShiftImm(funct7: bv7, funct3: bv3, rd: bv5, rs1: bv5, shamt: bv5): bv32 {
    EncodeR(OP_IMM, rd, funct3, rs1, shamt, funct7)
  }

  lemma ImmYields(o: Oracle, m: Machine, funct3: bv3, rd: bv5, rs1: bv5, imm: bv32)
    requires Fits12(imm) && funct3 != 1 && funct3 != 5
    ensures Yields(o, m, Imm(funct3, rd, rs1, imm), rd, ImmResult(funct3, 0, ReadReg(m, rs1), imm, 0))
  {
    hide Dispatch, Decode, EncodeI, ReadReg, WriteReg, ImmResult, Plus, Fits12;
    OpImmMeans(o, m, rd, funct3, rs1, imm, Plus(m.pc, 4));
  }

  lemma ShiftYields(o: Oracle, m: Machine, funct7: bv7, funct3: bv3, rd: bv5, rs1: bv5, shamt: bv5)
    requires funct3 == 1 || funct3 == 5
    ensures Yields(o, m, ShiftImm(funct7, funct3, rd, rs1, shamt), rd,
                   ImmResult(funct3, funct7, ReadReg(m, rs1), 0, shamt))
  {
    hide Dispatch, Decode, EncodeR, ReadReg, WriteReg, ImmResult, Plus;
    ShiftMeans(o, m, rd, funct3, rs1, shamt, funct7, Plus(m.pc, 4));
  }

  /** ADDI, SLTI and SLTIU, for every 12-bit immediate. */
  lemma ImmediateSums(o: Oracle, m: Machine, rd: bv5, rs1: bv5, imm: bv32)
    requires Fits12(imm)
    ensures exists sum: bv32 ::
              Yields(o, m, Imm(0, rd, rs1, imm), rd, sum) && Value(sum) == (Value(ReadReg(m, rs1)) + Value(imm)) % WORD
    ensures Yields(o, m, Imm(2, rd, rs1, imm), rd, if Signed(ReadReg(m, rs1)) < Signed(imm) then 1 else 0)
    ensures Yields(o, m, Imm(3, rd, rs1, imm), rd, if Value(ReadReg(m, rs1)) < Value(imm) then 1 else 0)
  {
    hide Yields, OpResult, ReadReg, Value, Signed, IsOp, ImmResult, Imm, Fits12;
    var a := ReadReg(m, rs1);
    ImmYields(o, m, 0, rd, rs1, imm);
    ImmYields(o, m, 2, rd, rs1, imm);
    ImmYields(o, m, 3, rd, rs1, imm);
    AddSubMean(a, imm);
    SetLessMean(a, imm);
  }

  /** XORI, ORI and ANDI, bit by bit, for every 12-bit immediate. */
  lemma ImmediateBits(o: Oracle, m: Machine, rd: bv5, rs1: bv5, imm: bv32, k: nat)
    requires Fits12(imm)
    ensures var a := ReadReg(m, rs1);
            exists x: bv32, y: bv32, z: bv32 ::
              && Yields(o, m, Imm(4, rd, rs1, imm), rd, x) && (BitAt(x, k) <==> BitAt(a, k) != BitAt(imm, k))
              && Yields(o, m, Imm(6, rd, rs1, imm), rd, y) && (BitAt(y, k) <==> BitAt(a, k) || BitAt(imm, k))
              && Yields(o, m, Imm(7, rd, rs1, imm), rd, z) && (BitAt(z, k) <==> BitAt(a, k) && BitAt(imm, k))
  {
    hide Yields, OpResult, ReadReg, IsOp, ImmResult, Imm, BitAt, Fits12;
    ImmYields(o, m, 4, rd, rs1, imm);
    ImmYields(o, m, 6, rd, rs1, imm);
    ImmYields(o, m, 7, rd, rs1, imm);
    LogicMeans(ReadReg(m, rs1), imm, k);
  }

  /** SLLI, SRLI and SRAI, for every shift amount. */
  lemma ImmediateShifts(o: Oracle, m: Machine, rd: bv5, rs1: bv5, shamt: bv5)
    ensures var a, n := ReadReg(m, rs1), Pow2(Amount(shamt));
            exists left: bv32, right: bv32, arithmetic: bv32 ::
              && Yields(o, m, ShiftImm(0x00, 1, rd, rs1, shamt), rd, left) && Value(left) == (Value(a) * n) % WORD
              && Yields(o, m, ShiftImm(0x00, 5, rd, rs1, shamt), rd, right) && Value(right) == Value(a) / n
              && Yields(o, m, ShiftImm(0x20, 5, rd, rs1, shamt), rd, arithmetic) && Signed(arithmetic) == Signed(a) / n
  {
    hide Yields, ReadReg, Value, Signed, ImmResult, ShiftImm, Amount, Shl, Shr, Sra;
    var a := ReadReg(m, rs1);
    ShiftYields(o, m, 0x00, 1, rd, rs1, shamt);
    ShiftYields(o, m, 0x00, 5, rd, rs1, shamt);
    ShiftYields(o, m, 0x20, 5, rd, rs1, shamt);
    ShiftForms(a, shamt);
    ShlIsProduct(a, shamt);
    ShrIsQuotient(a, shamt);
    SraIsFloor(a, shamt);
  }

  lemma ShiftForms(a: bv32, shamt: bv5)
    ensures ImmResult(1, 0x00, a, 0, shamt) == Shl(a, shamt) && ImmResult(5, 0x00, a, 0, shamt) == Shr(a, shamt)
    ensures ImmResult(5, 0x20, a, 0, shamt) == Sra(a, shamt)
  {
    hide Shl, Shr, Sra, Plus, Xor, And, Or, SignedLess;
  }

  lemma MulDivYields(o: Oracle, m: Machine, funct3: bv3, rd: bv5, rs1: bv5, rs2: bv5)
    ensures Yields(o, m, Reg3(0x01, funct3, rd, rs1, rs2), rd, MulDiv(funct3, ReadReg(m, rs1), ReadReg(m, rs2)))
  {
    hide Dispatch, Decode, EncodeR, ReadReg, WriteReg, MulDiv, Plus;
    MulDivMeans(o, m, rd, funct3, rs1, rs2, Plus(m.pc, 4));
  }

  /** MUL, MULH, MULHSU and MULHU: the low word and the high words of the three products. */
  lemma Products(o: Oracle, m: Machine, rd: bv5, rs1: bv5, rs2: bv5)
    ensures var a, b := ReadReg(m, rs1), ReadReg(m, rs2);
            exists low: bv32, high: bv32, mixed: bv32, unsigned: bv32 ::
              && Yields(o, m, Reg3(0x01, 0, rd, rs1, rs2), rd, low)
              && Yields(o, m, Reg3(0x01, 1, rd, rs1, rs2), rd, high)
              && Yields(o, m, Reg3(0x01, 2, rd, rs1, rs2), rd, mixed)
              && Yields(o, m, Reg3(0x01, 3, rd, rs1, rs2), rd, unsigned)
              && WORD * Signed(high) + Value(low) == Signed(a) * Signed(b)
              && WORD * Signed(mixed) + Value(low) == Signed(a) * Value(b)
              && WORD * Value(unsigned) + Value(low) == Value(a) * Value(b)
  {
    hide Yields, MulDiv, ReadReg, Value, Signed, Reg3;
    var a, b := ReadReg(m, rs1), ReadReg(m, rs2);
    MulDivYields(o, m, 0, rd, rs1, rs2);
    MulDivYields(o, m, 1, rd, rs1, rs2);
    MulDivYields(o, m, 2, rd, rs1, rs2);
    MulDivYields(o, m, 3, rd, rs1, rs2);
    MulhIsExact(a, b);
    MulhsuIsExact(a, b);
    MulhuIsExact(a, b);
  }

  /** DIVU and REMU by a divisor other than zero, and all four divisions by zero. */
  lemma Divisions(o: Oracle, m: Machine, rd: bv5, rs1: bv5, rs2: bv5)
    ensures var a, b := ReadReg(m, rs1), ReadReg(m, rs2);
            exists q: bv32, r: bv32 ::
              && Yields(o, m, Reg3(0x01, 5, rd, rs1, rs2), rd, q) && Yields(o, m, Reg3(0x01, 7, rd, rs1, rs2), rd, r)
              && if b == 0 then q == 0xFFFF_FFFF && r == a
                 else Value(q) * Value(b) + Value(r) == Value(a) && Value(r) < Value(b)
  {
    hide Yields, MulDiv, ReadReg, Value, Signed, Reg3, DivideWords, RemainderWords;
    var a, b := ReadReg(m, rs1), ReadReg(m, rs2);
    MulDivYields(o, m, 5, rd, rs1, rs2);
    MulDivYields(o, m, 7, rd, rs1, rs2);
    DivisionForms(a, b);
    if b != 0 {
      RemuIsExact(a, b);
    }
  }

  /** DIV and REM: truncating, but for the one overflow. */
  lemma SignedDivisions(o: Oracle, m: Machine, rd: bv5, rs1: bv5, rs2: bv5)
    ensures var a, b := ReadReg(m, rs1), ReadReg(m, rs2);
            exists q: bv32, r: bv32 ::
              && Yields(o, m, Reg3(0x01, 4, rd, rs1, rs2), rd, q) && Yields(o, m, Reg3(0x01, 6, rd, rs1, rs2), rd, r)
              && if b == 0 then q == 0xFFFF_FFFF && r == a
                 else if Signed(a) == -0x8000_0000 && Signed(b) == -1 then Signed(q) == -0x8000_0000 && Signed(r) == 0
                 else
                   && Signed(q) * Signed(b) + Signed(r) == Signed(a)
                   && (Signed(a) >= 0 ==> Signed(r) >= 0) && (Signed(a) <= 0 ==> Signed(r) <= 0)
                   && (Signed(b) > 0 ==> -Signed(b) < Signed(r) < Signed(b))
                   && (Signed(b) < 0 ==> Signed(b) < Signed(r) < -Signed(b))
  {
    hide Yields, MulDiv, ReadReg, Value, Signed, Reg3, DivideWords, RemainderWords;
    var a, b := ReadReg(m, rs1), ReadReg(m, rs2);
    MulDivYields(o, m, 4, rd, rs1, rs2);
    MulDivYields(o, m, 6, rd, rs1, rs2);
    DivisionForms(a, b);
    if b != 0 {
      RemIsExact(a, b);
    }
  }
}
