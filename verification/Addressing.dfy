/**
 * Addresses that instructions form, on numbers: the pc-relative and register-relative
 * jumps, AUIPC, and the pairs that reach any 32-bit offset from the pc. Section 2.4
 * and 2.5 of the RISC-V Unprivileged ISA, version 20191213.
 */
module Addressing {
  import opened Bits
  import opened HostImports
  import opened Instructions
  import opened Machine
  import opened Formats
  import opened Multiply
  import opened Arithmetic
  import opened Guest

  function Auipc(rd: bv5, imm: bv32): bv32 { EncodeU(OP_AUIPC, rd, imm) }
  function Jalr(rd: bv5, rs1: bv5, imm: bv32): bv32 { EncodeI(OP_JALR, rd, 0, rs1, imm) }

  /** `x` is the sum of `a` and `b`, modulo 2^32. */
  predicate IsSum(x: bv32, a: bv32, b: bv32) { Value(x) == (Value(a) + Value(b)) % WORD }

  /** The pc moves on by four bytes, modulo 2^32. */
  predicate FallsThrough(m: Machine, m': Machine) { Value(m'.pc) == (Value(m.pc) + 4) % WORD }

  lemma NextAddress(pc: bv32)
    ensures Value(Plus(pc, 4)) == (Value(pc) + 4) % WORD
    ensures Value(Plus(Plus(pc, 4), 4)) == (Value(pc) + 8) % WORD
  {
    hide Value, Plus;
    FourIsFour();
    SumIsModular(pc, 4);
    SumIsModular(Plus(pc, 4), 4);
    ModSum(Value(pc) + 4, 4);
  }

  /** AUIPC: rd is the pc plus the upper immediate, modulo 2^32, and nothing else changes but the pc. */
  lemma AuipcAdds(o: Oracle, m: Machine, rd: bv5, imm: bv32)
    requires imm & 0xFFF == 0
    ensures var r := Execute32(o, m, Auipc(rd, imm));
            && r.Ok? && FallsThrough(m, r.m)
            && r.m == m.(pc := r.m.pc, regs := r.m.regs)
            && (rd != 0 ==> IsSum(r.m.regs[rd as int], m.pc, imm))
            && (rd != 0 ==> r.m.regs == m.regs[rd as int := r.m.regs[rd as int]])
            && (rd == 0 ==> r.m.regs == m.regs)
  {
    hide Dispatch, Decode, EncodeU, Plus, Value;
    AuipcMeans(o, m, rd, imm, Plus(m.pc, 4));
    SumIsModular(m.pc, imm);
    NextAddress(m.pc);
  }

  /** LUI: rd is the upper immediate. */
  lemma LuiLoads(o: Oracle, m: Machine, rd: bv5, imm: bv32)
    requires imm & 0xFFF == 0
    ensures var r := Execute32(o, m, EncodeU(OP_LUI, rd, imm));
            r.Ok? && FallsThrough(m, r.m) && r.m == WriteReg(m, rd, imm).(pc := r.m.pc)
  {
    hide Dispatch, Decode, EncodeU, Plus, Value, WriteReg;
    LuiMeans(o, m, rd, imm, Plus(m.pc, 4));
    NextAddress(m.pc);
  }

  /** JAL: the pc plus the offset, modulo 2^32, with the following address in rd. */
  lemma JalJumps(o: Oracle, m: Machine, rd: bv5, imm: bv32)
    requires Fits21(imm)
    ensures var r := Execute32(o, m, EncodeJ(OP_JAL, rd, imm));
            && r.Ok? && IsSum(r.m.pc, m.pc, imm)
            && r.m == WriteReg(m, rd, Plus(m.pc, 4)).(pc := r.m.pc)
            && Value(Plus(m.pc, 4)) == (Value(m.pc) + 4) % WORD
  {
    hide Dispatch, Decode, EncodeJ, Plus, Value, WriteReg, Fits21;
    JalMeans(o, m, rd, imm, Plus(m.pc, 4));
    SumIsModular(m.pc, imm);
    NextAddress(m.pc);
  }

  lemma EvenValue(x: bv32)
    ensures Value(Even(x)) == Value(x) - Value(x) % 2
  {
    hide FromNat, Value, Append;
    var h := Value(x) / 2;
    FromNatOfWord(x);
    FromNatUnfold(h);
    EvenAppend(FromNat(h), Value(x) % 2 == 1);
    assert Value(x) == 2 * h || Value(x) == 2 * h + 1;
    FromNatValue(2 * h);
  }

  lemma EvenAppend(x: bv32, bit: bool)
    ensures Even(Append(x, bit)) == Append(x, false)
  {
    hide Even, Append;
    if bit {
      EvenOdd(x);
    } else {
      EvenEven(x);
    }
  }

  lemma EvenEven(x: bv32)
    ensures Even(Append(x, false)) == Append(x, false)
  {
  }

  lemma EvenOdd(x: bv32)
    ensures Even(Append(x, true)) == Append(x, false)
  {
  }

  /** JALR: the register plus the offset with its lowest bit cleared, and the following address in rd. */
  lemma JalrJumps(o: Oracle, m: Machine, rd: bv5, rs1: bv5, imm: bv32)
    requires Fits12(imm)
    ensures var r := Execute32(o, m, Jalr(rd, rs1, imm));
            var target := (Value(ReadReg(m, rs1)) + Value(imm)) % WORD;
            && r.Ok? && Value(r.m.pc) == target - target % 2
            && r.m == WriteReg(m, rd, Plus(m.pc, 4)).(pc := r.m.pc)
            && Value(Plus(m.pc, 4)) == (Value(m.pc) + 4) % WORD
  {
    hide Dispatch, Decode, EncodeI, Plus, Value, WriteReg, ReadReg, Fits12, Even;
    JalrMeans(o, m, rd, rs1, imm, Plus(m.pc, 4));
    SumIsModular(ReadReg(m, rs1), imm);
    EvenValue(Plus(ReadReg(m, rs1), imm));
    NextAddress(m.pc);
  }

  /** The condition a branch is named after, on numbers. */
  predicate Taken(funct3: bv3, a: bv32, b: bv32)
    requires funct3 != 2 && funct3 != 3
  {
    if funct3 == 0 then Value(a) == Value(b)
    else if funct3 == 1 then Value(a) != Value(b)
    else if funct3 == 4 then Signed(a) < Signed(b)
    else if funct3 == 5 then Signed(a) >= Signed(b)
    else if funct3 == 6 then Value(a) < Value(b)
    else Value(a) >= Value(b)
  }

  /** A branch goes to the pc plus its offset if its condition holds, and on otherwise; nothing else changes. */
  lemma BranchJumps(o: Oracle, m: Machine, funct3: bv3, rs1: bv5, rs2: bv5, imm: bv32)
    requires Fits13(imm) && funct3 != 2 && funct3 != 3
    ensures var r := Execute32(o, m, EncodeB(OP_BRANCH, funct3, rs1, rs2, imm));
            && r.Ok? && r.m == m.(pc := r.m.pc)
            && (if Taken(funct3, ReadReg(m, rs1), ReadReg(m, rs2)) then IsSum(r.m.pc, m.pc, imm)
                else FallsThrough(m, r.m))
  {
    hide Dispatch, Decode, EncodeB, Plus, Value, Signed, ReadReg, Fits13, Compare;
    var a, b := ReadReg(m, rs1), ReadReg(m, rs2);
    BranchMeans(o, m, funct3, rs1, rs2, imm, Plus(m.pc, 4));
    BranchesMean(a, b);
    OnlySeven(funct3);
    SumIsModular(m.pc, imm);
    NextAddress(m.pc);
  }

  lemma OnlySeven(f: bv3)
    ensures f == 0 || f == 1 || f == 2 || f == 3 || f == 4 || f == 5 || f == 6 || f == 7
  {
  }

  // ---- Any offset from the pc ----

  lemma UpperPart(off: bv32)
    ensures Shl(High(off), 12) & 0xFFF == 0
  {
  }

  /** The two parts of an offset, added one after the other, add the offset. */
  lemma PartsReach(pc: bv32, off: bv32)
    ensures IsSum(Plus(Plus(pc, Shl(High(off), 12)), Low(off)), pc, off)
  {
    hide Value, Plus, Shl, High, Low;
    var hi, lo := Shl(High(off), 12), Low(off);
    LiParts(off);
    SumIsModular(pc, hi);
    SumIsModular(Plus(pc, hi), lo);
    SumIsModular(hi, lo);
    ModSum(Value(pc) + Value(hi), Value(lo));
    ModSum(Value(hi) + Value(lo), Value(pc));
  }

  /** The machine after the AUIPC of a pair. */
  function AfterAuipc(o: Oracle, m: Machine, rd: bv5, off: bv32): Outcome {
    Execute32(o, m, Auipc(rd, Shl(High(off), 12)))
  }

  lemma AuipcOfPair(o: Oracle, m: Machine, rd: bv5, off: bv32)
    ensures AfterAuipc(o, m, rd, off) == Ok(WriteReg(m, rd, Plus(m.pc, Shl(High(off), 12))).(pc := Plus(m.pc, 4)))
  {
    hide Dispatch, Decode, EncodeU, Plus, WriteReg, Shl, High;
    UpperPart(off);
    AuipcMeans(o, m, rd, Shl(High(off), 12), Plus(m.pc, 4));
  }

  /** AUIPC and ADDI form the pc plus any 32-bit offset, in any register but x0. */
  lemma AuipcAddiReachesAnyOffset(o: Oracle, m: Machine, rd: bv5, off: bv32)
    requires rd != 0
    ensures var r := Execute32(o, AfterAuipc(o, m, rd, off).m, Addi(rd, rd, Low(off)));
            && AfterAuipc(o, m, rd, off).Ok? && r.Ok?
            && IsSum(r.m.regs[rd as int], m.pc, off)
            && Value(r.m.pc) == (Value(m.pc) + 8) % WORD
            && r.m == WriteReg(m, rd, r.m.regs[rd as int]).(pc := r.m.pc)
  {
    hide Dispatch, Decode, EncodeI, Plus, Value, Shl, High, Low, Fits12, IsSum, AfterAuipc;
    AuipcOfPair(o, m, rd, off);
    var m1 := AfterAuipc(o, m, rd, off).m;
    LiParts(off);
    OpImmMeans(o, m1, rd, 0, rd, Low(off), Plus(m1.pc, 4));
    PartsReach(m.pc, off);
    NextAddress(m.pc);
  }

  /**
   * AUIPC and JALR jump to the pc plus any 32-bit offset, with its lowest bit
   * cleared, and leave the address after the pair in the link register.
   */
  lemma AuipcJalrReachesAnyOffset(o: Oracle, m: Machine, rd: bv5, link: bv5, off: bv32)
    requires rd != 0
    ensures var m1 := AfterAuipc(o, m, rd, off).m;
            var r := Execute32(o, m1, Jalr(link, rd, Low(off)));
            var target := (Value(m.pc) + Value(off)) % WORD;
            && AfterAuipc(o, m, rd, off).Ok? && r.Ok?
            && Value(r.m.pc) == target - target % 2
            && (link != 0 ==> Value(r.m.regs[link as int]) == (Value(m.pc) + 8) % WORD)
            && r.m == WriteReg(m1, link, Plus(m1.pc, 4)).(pc := r.m.pc)
  {
    hide Execute32, EncodeI, Plus, Value, Shl, High, Low, Fits12, AfterAuipc;
    AuipcOfPair(o, m, rd, off);
    var m1 := AfterAuipc(o, m, rd, off).m;
    LiParts(off);
    JalrJumps(o, m1, link, rd, Low(off));
    PartsReach(m.pc, off);
    SumIsModular(Plus(m.pc, Shl(High(off), 12)), Low(off));
    NextAddress(m.pc);
  }
}
