/**
 * Store/load coherence at instruction level: what a store leaves for a load of the
 * same width from the same address, at any alignment and across page edges, and
 * that every other byte keeps its value. Ranges lie wholly below the device window.
 */
module Coherence {
  import opened Bits
  import opened HostImports
  import opened FlatMemory
  import opened Instructions
  import opened Machine
  import opened Compressed
  import opened Formats
  import opened Expansion
  import Arithmetic

  // ---- Flat memory ----

  lemma BytesOfWord(v: bv32)
    ensures Word(Byte(v, 0), Byte(v, 1), Byte(v, 2), Byte(v, 3)) == v
  {
  }

  lemma BytesOfHalf(v: bv16)
    ensures Half(Byte16(v, 0), Byte16(v, 1)) == v
  {
  }

  /** Memory agrees outside `[a, a+n)` and nothing but contents differs. */
  ghost predicate OnlyRange(s: Store, s': Store, a: int, n: int) {
    && s' == s.(bytes := s'.bytes)
    && forall x: int :: !(a <= x < a + n) ==> At(s'.bytes, x) == At(s.bytes, x)
  }

  lemma WordCoherent(o: Oracle, s: Store, a: U32, v: bv32)
    requires a + 4 <= MMIO_BASE
    ensures Load32(o, Store32(s, a, v), a) == Read(v, Store32(s, a, v))
    ensures OnlyRange(s, Store32(s, a, v), a, 4)
  {
    hide Word, Byte;
    BytesOfWord(v);
  }

  lemma HalfCoherent(o: Oracle, s: Store, a: U32, v: bv16)
    requires a + 2 <= MMIO_BASE
    ensures Load16(o, Store16(s, a, v), a) == Read(v, Store16(s, a, v))
    ensures OnlyRange(s, Store16(s, a, v), a, 2)
  {
    hide Half, Byte16;
    BytesOfHalf(v);
  }

  lemma ByteCoherent(o: Oracle, s: Store, a: U32, v: bv8)
    requires a + 1 <= MMIO_BASE
    ensures Load8(o, Store8(s, a, v), a) == Read(v, Store8(s, a, v))
    ensures OnlyRange(s, Store8(s, a, v), a, 1)
  {
  }

  // ---- Instructions ----

  /** The effective address of a store. */
  function StoreAddress(m: Machine, st: bv32): bv32 { Address(m, Decode(st).rs1, SImm(st)) }

  /** A store and a load of `width` bytes at the same effective address, wholly below the device window. */
  predicate SameCell(m: Machine, st: bv32, ld: bv32, width: nat) {
    && Address(m, Decode(ld).rs1, IImm(ld)) == StoreAddress(m, st)
    && Value(StoreAddress(m, st)) + width <= MMIO_BASE
  }

  predicate IsInst(raw: bv32, opcode: bv7, funct3: bv3) { Decode(raw).opcode == opcode && Decode(raw).funct3 == funct3 }

  /** Bytes accessed by a load or store with this `funct3`. */
  function Width(funct3: bv3): nat {
    if funct3 == 0 || funct3 == 4 then 1 else if funct3 == 1 || funct3 == 5 then 2 else 4
  }

  /** What a load with this `funct3` makes of the word that was stored. */
  function Extended(funct3: bv3, v: bv32): bv32 {
    if funct3 == 0 then SignExtend8(LowByte(v))
    else if funct3 == 1 then SignExtend16(LowHalf(v))
    else if funct3 == 4 then ZeroExtend8(LowByte(v))
    else if funct3 == 5 then ZeroExtend16(LowHalf(v))
    else v
  }

  /** The store arm, by width. */
  lemma StoreArm(o: Oracle, m: Machine, d: Inst32, next: bv32)
    requires d.opcode == OP_STORE && d.funct3 <= 2
    ensures var addr, v := Address(m, d.rs1, SImm(d.raw)), ReadReg(m, d.rs2);
            Dispatch(o, m, d, next) ==
            Done(if d.funct3 == 0 then Put8(m, addr, LowByte(v))
              else if d.funct3 == 1 then Put16(m, addr, LowHalf(v)) else Put32(m, addr, v), next)
  {
    hide Dispatch, Put8, Put16, Put32, Address, ReadReg, SImm, LowHalf, LowByte;
    RouteStore(o, m, d, next);
  }

  /** A load with this `funct3` from `a` yields `val` and calls no device. */
  predicate Reads(o: Oracle, m: Machine, a: bv32, funct3: bv3, val: bv32) {
    && (funct3 == 0 ==> Get8(o, m, a).m == m && SignExtend8(Get8(o, m, a).val) == val)
    && (funct3 == 4 ==> Get8(o, m, a).m == m && ZeroExtend8(Get8(o, m, a).val) == val)
    && (funct3 == 1 ==> Get16(o, m, a).m == m && SignExtend16(Get16(o, m, a).val) == val)
    && (funct3 == 5 ==> Get16(o, m, a).m == m && ZeroExtend16(Get16(o, m, a).val) == val)
    && (funct3 == 2 ==> Get32(o, m, a) == Got(val, m))
  }

  lemma LoadArm(o: Oracle, m: Machine, d: Inst32, next: bv32, val: bv32)
    requires d.opcode == OP_LOAD && d.funct3 in {0, 1, 2, 4, 5}
    requires Reads(o, m, Address(m, d.rs1, IImm(d.raw)), d.funct3, val)
    ensures Dispatch(o, m, d, next) == Done(WriteReg(m, d.rd, val), next)
  {
    hide Dispatch, Get8, Get16, Get32, Address, WriteReg, ReadReg, IImm, SignExtend8, SignExtend16;
    hide ZeroExtend8, ZeroExtend16;
    RouteLoad(o, m, d, next);
  }

  /** What the store leaves, whatever its width: the range, and the value every load of that width reads. */
  lemma StoredValue(o: Oracle, m: Machine, d: Inst32, next: bv32, funct3: bv3, pc: bv32)
    requires d.opcode == OP_STORE && d.funct3 <= 2 && funct3 in {0, 1, 2, 4, 5} && Width(funct3) == Width(d.funct3)
    requires Value(Address(m, d.rs1, SImm(d.raw))) + Width(d.funct3) <= MMIO_BASE
    ensures Dispatch(o, m, d, next).Done? && Dispatch(o, m, d, next).next == next
    ensures var a, v := Address(m, d.rs1, SImm(d.raw)), ReadReg(m, d.rs2);
            var m1 := Dispatch(o, m, d, next).m.(pc := pc);
            && m1 == m.(st := m1.st, pc := pc)
            && OnlyRange(m.st, m1.st, Value(a), Width(d.funct3))
            && Reads(o, m1, a, funct3, Extended(funct3, v))
  {
    hide Dispatch, Address, ReadReg, SImm, Put8, Put16, Put32, OnlyRange, Reads, Extended, LowHalf;
    hide LowByte, Value;
    var addr, v := Address(m, d.rs1, SImm(d.raw)), ReadReg(m, d.rs2);
    StoreArm(o, m, d, next);
    if d.funct3 == 0 {
      PutByteReads(o, m, addr, v, funct3, pc);
    } else if d.funct3 == 1 {
      PutHalfReads(o, m, addr, v, funct3, pc);
    } else {
      PutWordReads(o, m, addr, v, funct3, pc);
    }
  }

  lemma PutByteReads(o: Oracle, m: Machine, a: bv32, v: bv32, funct3: bv3, pc: bv32)
    requires Value(a) + 1 <= MMIO_BASE && (funct3 == 0 || funct3 == 4)
    ensures var m1 := Put8(m, a, LowByte(v)).(pc := pc);
            && m1 == m.(st := m1.st, pc := pc)
            && OnlyRange(m.st, m1.st, Value(a), 1)
            && Reads(o, m1, a, funct3, Extended(funct3, v))
  {
    hide Load8, Load16, Load32, Store8, OnlyRange, SignExtend8, SignExtend16, ZeroExtend8, ZeroExtend16;
    hide LowHalf, LowByte, Value;
    ByteCoherent(o, m.st, Value(a), LowByte(v));
  }

  lemma PutHalfReads(o: Oracle, m: Machine, a: bv32, v: bv32, funct3: bv3, pc: bv32)
    requires Value(a) + 2 <= MMIO_BASE && (funct3 == 1 || funct3 == 5)
    ensures var m1 := Put16(m, a, LowHalf(v)).(pc := pc);
            && m1 == m.(st := m1.st, pc := pc)
            && OnlyRange(m.st, m1.st, Value(a), 2)
            && Reads(o, m1, a, funct3, Extended(funct3, v))
  {
    hide Load8, Load16, Load32, Store16, OnlyRange, SignExtend8, SignExtend16, ZeroExtend8;
    hide ZeroExtend16, LowHalf, LowByte, Value;
    HalfCoherent(o, m.st, Value(a), LowHalf(v));
  }

  lemma PutWordReads(o: Oracle, m: Machine, a: bv32, v: bv32, funct3: bv3, pc: bv32)
    requires Value(a) + 4 <= MMIO_BASE && funct3 == 2
    ensures var m1 := Put32(m, a, v).(pc := pc);
            && m1 == m.(st := m1.st, pc := pc)
            && OnlyRange(m.st, m1.st, Value(a), 4)
            && Reads(o, m1, a, funct3, Extended(funct3, v))
  {
    hide Load8, Load16, Load32, Store32, OnlyRange, SignExtend8, SignExtend16, ZeroExtend8;
    hide ZeroExtend16, LowHalf, LowByte, Value;
    WordCoherent(o, m.st, Value(a), v);
  }

  /**
   * A store followed by a load of the same width from the same effective address
   * puts the low bits of the stored register into the target, sign- or
   * zero-extended; the load changes nothing else, and the store changes no byte
   * outside its range. Both run as instructions of any length.
   */
  lemma StoreThenLoad(o: Oracle, m: Machine, st: bv32, n1: bv32, ld: bv32, n2: bv32)
    requires Decode(st).opcode == OP_STORE && Decode(st).funct3 <= 2
    requires Decode(ld).opcode == OP_LOAD && Decode(ld).funct3 in {0, 1, 2, 4, 5}
    requires Width(Decode(st).funct3) == Width(Decode(ld).funct3)
    requires SameCell(m, st, ld, Width(Decode(st).funct3))
    ensures Base(o, m, st, n1).Ok?
    ensures var m1 := Base(o, m, st, n1).m;
            && m1 == m.(st := m1.st, pc := n1)
            && OnlyRange(m.st, m1.st, Value(StoreAddress(m, st)), Width(Decode(st).funct3))
            && Base(o, m1, ld, n2) ==
               Ok(WriteReg(m1, Decode(ld).rd, Extended(Decode(ld).funct3, ReadReg(m, Decode(st).rs2))).(pc := n2))
  {
    hide Decode, Dispatch, Address, ReadReg, WriteReg, SImm, IImm, OnlyRange, Reads, Extended, Value;
    DecodeKeepsRaw(st);
    DecodeKeepsRaw(ld);
    var ds, dl := Decode(st), Decode(ld);
    StoredValue(o, m, ds, n1, dl.funct3, n1);
    var m1 := Base(o, m, st, n1).m;
    SameAddress(m, m1, dl.rs1, IImm(ld));
    LoadArm(o, m1, dl, n2, Extended(dl.funct3, ReadReg(m, ds.rs2)));
  }

  lemma SameAddress(m: Machine, m1: Machine, r: bv5, offset: bv32)
    requires m1.regs == m.regs
    ensures Address(m1, r, offset) == Address(m, r, offset)
  {
    hide Plus;
  }

  // ---- Atomics ----

  /**
   * An atomic reads the word, writes the combination (except LR.W) and returns
   * the old word (except SC.W, which always succeeds). No other byte changes.
   */
  lemma AmoCoherent(o: Oracle, m: Machine, raw: bv32, next: bv32)
    requires Decode(raw).opcode == OP_AMO && IsAmo(Funct5(Decode(raw)))
    requires Value(ReadReg(m, Decode(raw).rs1)) + 4 <= MMIO_BASE
    ensures var d := Decode(raw);
            var f, a := Funct5(d), ReadReg(m, d.rs1);
            var was := Get32(o, m, a);
            var m1 := if f == 0x02 then m else Put32(m, a, AmoValue(f, was.val, ReadReg(m, d.rs2)));
            && was.m == m
            && Base(o, m, raw, next) == Ok(WriteReg(m1, d.rd, if f == 0x03 then 0 else was.val).(pc := next))
            && OnlyRange(m.st, m1.st, Value(a), 4)
            && (f != 0x02 ==> Get32(o, m1, a).val == AmoValue(f, was.val, ReadReg(m, d.rs2)))
  {
    hide Decode, Dispatch, ReadReg, WriteReg, Funct5, IsAmo, AmoValue, Load32, Store32, OnlyRange, Value;
    DecodeKeepsRaw(raw);
    var d := Decode(raw);
    var f, a := Funct5(d), ReadReg(m, d.rs1);
    SilentLoad(o, m.st, Value(a));
    RouteAmo(o, m, d, next);
    RangeSame(m.st, Value(a));
    WordCoherent(o, m.st, Value(a), AmoValue(f, Get32(o, m, a).val, ReadReg(m, d.rs2)));
  }

  lemma SilentLoad(o: Oracle, s: Store, a: U32)
    requires a + 4 <= MMIO_BASE
    ensures Load32(o, s, a).st == s
  {
    hide Word;
  }

  lemma RangeSame(s: Store, a: int)
    ensures OnlyRange(s, s, a, 4)
  {
  }

  // ---- Floating-point loads and stores ----

  /** FSW then FLW: the low word comes back NaN-boxed, and no other byte changes. */
  lemma FloatStoreThenLoad(o: Oracle, m: Machine, st: bv32, n1: bv32, ld: bv32, n2: bv32)
    requires IsInst(st, OP_STORE_FP, 2) && IsInst(ld, OP_LOAD_FP, 2) && SameCell(m, st, ld, 4)
    ensures Base(o, m, st, n1).Ok?
    ensures var m1 := Base(o, m, st, n1).m;
            && m1 == m.(st := m1.st, pc := n1)
            && OnlyRange(m.st, m1.st, Value(StoreAddress(m, st)), 4)
            && Base(o, m1, ld, n2) ==
               Ok(SetFreg(m1, Decode(ld).rd, Boxed(LowWord(ReadFreg(m, Decode(st).rs2)))).(pc := n2))
  {
    hide Decode, Dispatch, Address, ReadReg, ReadFreg, SetFreg, WriteF64, Boxed, LowWord, PutDouble;
    hide GetDouble;
    hide SImm, IImm, OnlyRange, Load32, Store32, Value;
    DecodeKeepsRaw(st);
    DecodeKeepsRaw(ld);
    RouteStoreFp(o, m, Decode(st), n1);
    var m1 := Base(o, m, st, n1).m;
    RouteLoadFp(o, m1, Decode(ld), n2);
    SameAddress(m, m1, Decode(ld).rs1, IImm(ld));
    WordCoherent(o, m.st, Value(StoreAddress(m, st)), LowWord(ReadFreg(m, Decode(st).rs2)));
  }

  lemma PairOfWords(bits: bv64)
    ensures Pair(LowWord(bits), HighWord(bits)) == bits
  {
  }

  /** A word read from bytes that another store has not touched. */
  lemma WordElsewhere(o: Oracle, s: Store, s': Store, a: U32, b: int)
    requires a + 4 <= MMIO_BASE && OnlyRange(s, s', b, 4) && a + 4 <= b
    ensures Load32(o, s', a) == Read(Load32(o, s, a).val, s')
  {
    hide Word;
  }

  lemma RangeTransitive(s: Store, s1: Store, s2: Store, a: int)
    requires OnlyRange(s, s1, a, 4) && OnlyRange(s1, s2, a + 4, 4)
    ensures OnlyRange(s, s2, a, 8)
  {
  }

  lemma SecondWord(a: bv32)
    requires Value(a) + 8 <= MMIO_BASE
    ensures Value(Plus(a, 4)) == Value(a) + 4
  {
    hide Value, Plus;
    Arithmetic.SumIsModular(a, 4);
    FourIsFour();
  }

  /** A double stored below the device window is in memory bit for bit. */
  lemma DoubleCoherent(o: Oracle, m: Machine, a: bv32, bits: bv64)
    requires Value(a) + 8 <= MMIO_BASE
    ensures GetDouble(o, PutDouble(m, a, bits), a) == Got(bits, PutDouble(m, a, bits))
    ensures PutDouble(m, a, bits) == m.(st := PutDouble(m, a, bits).st)
    ensures OnlyRange(m.st, PutDouble(m, a, bits).st, Value(a), 8)
  {
    hide Value, Plus, Pair, LowWord, HighWord, Load32, Store32, OnlyRange;
    var x, low, high := Value(a), LowWord(bits), HighWord(bits);
    SecondWord(a);
    PairOfWords(bits);
    var s1 := Store32(m.st, x, low);
    var s2 := Store32(s1, x + 4, high);
    WordCoherent(o, m.st, x, low);
    WordCoherent(o, s1, x + 4, high);
    WordElsewhere(o, s1, s2, x, x + 4);
    RangeTransitive(m.st, s1, s2, x);
  }

  const CANONICAL_NAN: bv64 := 0x7FF8_0000_0000_0000

  /** The bit patterns that a double load leaves alone. */
  predicate Survives(bits: bv64) { IsNan64(bits) ==> bits == CANONICAL_NAN }

  lemma WriteF64Keeps(m: Machine, r: bv5, bits: bv64)
    ensures ReadFreg(WriteF64(m, r, bits), r) == if Survives(bits) then bits else CANONICAL_NAN
  {
    hide IsNan64;
  }

  /**
   * FSD then FLD. Memory holds the double bit for bit, but the load canonicalises
   * NaNs: the register that comes back is the one that was stored if and only if
   * it is not a NaN or is the canonical one.
   */
  lemma DoubleStoreThenLoad(o: Oracle, m: Machine, st: bv32, n1: bv32, ld: bv32, n2: bv32)
    requires IsInst(st, OP_STORE_FP, 3) && IsInst(ld, OP_LOAD_FP, 3) && SameCell(m, st, ld, 8)
    ensures Base(o, m, st, n1).Ok?
    ensures var bits := ReadFreg(m, Decode(st).rs2);
            var m1 := Base(o, m, st, n1).m;
            && m1 == m.(st := m1.st, pc := n1)
            && OnlyRange(m.st, m1.st, Value(StoreAddress(m, st)), 8)
            && GetDouble(o, m1, StoreAddress(m, st)) == Got(bits, m1)
            && Base(o, m1, ld, n2) == Ok(WriteF64(m1, Decode(ld).rd, bits).(pc := n2))
            && (ReadFreg(Base(o, m1, ld, n2).m, Decode(ld).rd) == bits <==> Survives(bits))
  {
    hide Decode, Dispatch, Address, ReadReg, SetFreg, WriteF64, Boxed, LowWord, PutDouble, GetDouble;
    hide SImm, IImm, OnlyRange, Put32, Get32, Value, Survives;
    DecodeKeepsRaw(st);
    DecodeKeepsRaw(ld);
    var a, bits := StoreAddress(m, st), ReadFreg(m, Decode(st).rs2);
    RouteStoreFp(o, m, Decode(st), n1);
    var m1 := Base(o, m, st, n1).m;
    RouteLoadFp(o, m1, Decode(ld), n2);
    DoubleCoherent(o, m, a, bits);
    SameAddress(m, m1, Decode(ld).rs1, IImm(ld));
    DoubleAnywhere(o, PutDouble(m, a, bits), a, n1);
    WriteF64Keeps(m1, Decode(ld).rd, bits);
    CanonicalSurvives();
  }

  lemma CanonicalSurvives()
    ensures Survives(CANONICAL_NAN)
  {
  }

  lemma DoubleAnywhere(o: Oracle, m: Machine, a: bv32, pc: bv32)
    ensures GetDouble(o, m.(pc := pc), a) == Got(GetDouble(o, m, a).val, GetDouble(o, m, a).m.(pc := pc))
  {
    hide Load32, Plus, Value, Pair;
  }

  /** Every NaN-boxed single is a NaN that a double load does not leave alone. */
  lemma BoxedIsLost(x: bv32)
    ensures IsNan64(Boxed(x)) && !Survives(Boxed(x))
  {
  }

  /** So saving a register that holds a single with FSD and restoring it with FLD destroys it, whatever the single. */
  lemma SpilledSingleIsLost(o: Oracle, m: Machine, st: bv32, n1: bv32, ld: bv32, n2: bv32, x: bv32)
    requires IsInst(st, OP_STORE_FP, 3) && IsInst(ld, OP_LOAD_FP, 3) && SameCell(m, st, ld, 8)
    requires ReadFreg(m, Decode(st).rs2) == Boxed(x)
    ensures var m1 := Base(o, m, st, n1).m;
            Base(o, m1, ld, n2).Ok? && ReadFreg(Base(o, m1, ld, n2).m, Decode(ld).rd) == CANONICAL_NAN != Boxed(x)
  {
    hide Base, Decode, IsInst, SameCell, StoreAddress, GetDouble, OnlyRange, WriteF64, Boxed, Survives, Value;
    DoubleStoreThenLoad(o, m, st, n1, ld, n2);
    BoxedIsLost(x);
    CanonicalSurvives();
    WriteF64Keeps(Base(o, m, st, n1).m, Decode(ld).rd, Boxed(x));
  }

  // ---- Compressed forms ----

  /** A compressed store and a compressed load of one kind at the same address, stack forms included. */
  predicate CompressedPair(m: Machine, i: bv16, j: bv16, store: bv7, load: bv7, funct3: bv3, width: nat) {
    && !IsLuiHint(i) && !IsLuiHint(j) && Expand(i).Some? && Expand(j).Some?
    && IsInst(Expand(i).value, store, funct3) && IsInst(Expand(j).value, load, funct3)
    && SameCell(m, Expand(i).value, Expand(j).value, width)
  }

  /** C.SW and C.SWSP with C.LW and C.LWSP. */
  lemma CompressedStoreThenLoad(o: Oracle, m: Machine, i: bv16, j: bv16)
    requires CompressedPair(m, i, j, OP_STORE, OP_LOAD, 2, 4)
    ensures var st, ld := Expand(i).value, Expand(j).value;
            var m1 := Execute16(o, m, i).m;
            && Execute16(o, m, i).Ok?
            && OnlyRange(m.st, m1.st, Value(StoreAddress(m, st)), 4)
            && Execute16(o, m1, j) == Ok(WriteReg(m1, Decode(ld).rd, ReadReg(m, Decode(st).rs2)).(pc := Plus(m1.pc, 2)))
  {
    hide Decode, Expand, IsLuiHint, Execute16, Base, Address, ReadReg, WriteReg, IImm, SImm, OnlyRange;
    hide Plus, Value;
    CompressedRefinesBase(o, m, i);
    var m1 := Execute16(o, m, i).m;
    CompressedRefinesBase(o, m1, j);
    StoreThenLoad(o, m, Expand(i).value, Plus(m.pc, 2), Expand(j).value, Plus(m1.pc, 2));
  }

  /** C.FSW and C.FSWSP with C.FLW and C.FLWSP. */
  lemma CompressedFloatStoreThenLoad(o: Oracle, m: Machine, i: bv16, j: bv16)
    requires CompressedPair(m, i, j, OP_STORE_FP, OP_LOAD_FP, 2, 4)
    ensures var st, ld := Expand(i).value, Expand(j).value;
            var m1 := Execute16(o, m, i).m;
            && Execute16(o, m, i).Ok?
            && OnlyRange(m.st, m1.st, Value(StoreAddress(m, st)), 4)
            && Execute16(o, m1, j) ==
               Ok(SetFreg(m1, Decode(ld).rd, Boxed(LowWord(ReadFreg(m, Decode(st).rs2)))).(pc := Plus(m1.pc, 2)))
  {
    hide Decode, Expand, IsLuiHint, Execute16, Base, IsInst, SameCell, StoreAddress, ReadFreg, SetFreg;
    hide Boxed, LowWord;
    hide OnlyRange, Plus, Value;
    CompressedRefinesBase(o, m, i);
    var m1 := Execute16(o, m, i).m;
    CompressedRefinesBase(o, m1, j);
    FloatStoreThenLoad(o, m, Expand(i).value, Plus(m.pc, 2), Expand(j).value, Plus(m1.pc, 2));
  }

  /** C.FSD and C.FSDSP with C.FLD and C.FLDSP: the register survives exactly as for FSD and FLD. */
  lemma CompressedDoubleStoreThenLoad(o: Oracle, m: Machine, i: bv16, j: bv16)
    requires CompressedPair(m, i, j, OP_STORE_FP, OP_LOAD_FP, 3, 8)
    ensures var st, ld := Expand(i).value, Expand(j).value;
            var bits := ReadFreg(m, Decode(st).rs2);
            var m1 := Execute16(o, m, i).m;
            && Execute16(o, m, i).Ok?
            && OnlyRange(m.st, m1.st, Value(StoreAddress(m, st)), 8)
            && Execute16(o, m1, j) == Ok(WriteF64(m1, Decode(ld).rd, bits).(pc := Plus(m1.pc, 2)))
            && (ReadFreg(Execute16(o, m1, j).m, Decode(ld).rd) == bits <==> Survives(bits))
  {
    hide Decode, Expand, IsLuiHint, Execute16, Base, IsInst, SameCell, StoreAddress, ReadFreg, WriteF64;
    hide GetDouble, Survives;
    hide OnlyRange, Plus, Value;
    CompressedRefinesBase(o, m, i);
    var m1 := Execute16(o, m, i).m;
    CompressedRefinesBase(o, m1, j);
    DoubleStoreThenLoad(o, m, Expand(i).value, Plus(m.pc, 2), Expand(j).value, Plus(m1.pc, 2));
  }
}
