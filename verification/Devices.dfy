/**
 * What loads, stores and atomics do in the device window: one call of the
 * instruction's width, with the address and the value, and no byte of memory
 * changed. Also how the bytes of an access below the window, or one that reaches
 * into it, make up its value, least significant byte first.
 */
module Devices {
  import opened Bits
  import opened HostImports
  import opened FlatMemory
  import opened Instructions
  import opened Machine
  import opened Formats
  import opened Multiply
  import opened Arithmetic
  import opened Coherence

  // ---- Values ----

  function ByteValue(b: bv8): (n: nat)
    ensures n < 256
  {
    b as int
  }

  function HalfValue(h: bv16): nat { h as int }

  lemma WidenedByte(b: bv8)
    ensures Value(ZeroExtend8(b)) == ByteValue(b)
  {
    assert (b as bv32) as int == b as int;
  }

  lemma WidenedHalf(h: bv16)
    ensures Value(ZeroExtend16(h)) == HalfValue(h)
  {
    assert (h as bv32) as int == h as int;
  }

  /** A word with one more byte on the right. */
  function Join(x: bv32, b: bv8): bv32 { (x << 8) | (b as bv32) }

  lemma JoinValue(x: bv32, b: bv8)
    requires Value(x) < 0x100_0000
    ensures Value(Join(x, b)) == 256 * Value(x) + ByteValue(b)
  {
    hide Value, Join, Shl, Plus, ByteValue, ZeroExtend8, Amount;
    WidenedByte(b);
    JoinIsSum(x, b);
    ShlIsProduct(x, 8);
    EightBits();
    SumIsModular(Shl(x, 8), ZeroExtend8(b));
    NoWrap(Value(x), ByteValue(b));
  }

  lemma NoWrap(v: nat, b: nat)
    requires v < 0x100_0000 && b < 256
    ensures ((v * 256) % WORD + b) % WORD == 256 * v + b
  {
  }

  lemma EightBits()
    ensures Pow2(Amount(8)) == 256
  {
    assert Pow2(4) == 16;
  }

  lemma JoinIsSum(x: bv32, b: bv8)
    ensures Join(x, b) == Plus(Shl(x, 8), ZeroExtend8(b))
  {
  }

  lemma WordInSteps(b0: bv8, b1: bv8, b2: bv8, b3: bv8)
    ensures Word(b0, b1, b2, b3) == Join(Join(Join(ZeroExtend8(b3), b2), b1), b0)
  {
  }

  /** Words are little-endian. */
  lemma WordIsLittleEndian(b0: bv8, b1: bv8, b2: bv8, b3: bv8)
    ensures Value(Word(b0, b1, b2, b3)) ==
            ByteValue(b0) + 0x100 * ByteValue(b1) + 0x1_0000 * ByteValue(b2) + 0x100_0000 * ByteValue(b3)
  {
    hide Value, Word, Join, ByteValue, ZeroExtend8;
    var x3 := ZeroExtend8(b3);
    var x2 := Join(x3, b2);
    WordInSteps(b0, b1, b2, b3);
    WidenedByte(b3);
    JoinValue(x3, b2);
    JoinValue(x2, b1);
    JoinValue(Join(x2, b1), b0);
  }

  /** Halfwords are little-endian. */
  lemma HalfIsLittleEndian(b0: bv8, b1: bv8)
    ensures HalfValue(Half(b0, b1)) == ByteValue(b0) + 0x100 * ByteValue(b1)
  {
    hide Value, Half, Join, ByteValue, HalfValue, ZeroExtend8, ZeroExtend16;
    WidenedHalf(Half(b0, b1));
    HalfInSteps(b0, b1);
    WidenedByte(b1);
    JoinValue(ZeroExtend8(b1), b0);
  }

  lemma HalfInSteps(b0: bv8, b1: bv8)
    ensures ZeroExtend16(Half(b0, b1)) == Join(ZeroExtend8(b1), b0)
  {
  }

  /** The low bits of a word are its remainder. */
  lemma LowBitsAreRemainder(v: bv32)
    ensures Value(And(v, 0xFF)) == Value(v) % 0x100
    ensures Value(And(v, 0xFFFF)) == Value(v) % 0x1_0000
  {
    hide Value, And;
    LowPart(v, 8, 0x100, 0xFF);
    LowPart(v, 16, 0x1_0000, 0xFFFF);
  }

  lemma LowPart(v: bv32, k: nat, p: nat, mask: bv32)
    requires (k == 8 && p == 0x100 && mask == 0xFF) || (k == 16 && p == 0x1_0000 && mask == 0xFFFF)
    ensures Value(And(v, mask)) == Value(v) % p
  {
    hide Value, And, FromNat;
    PowersOfTwo();
    MaskValue();
    FromNatOfWord(v);
    FromNatOfWord(mask);
    MaskLowBits(Value(v), k, p);
    FromNatValue(Value(v) % p);
  }

  lemma PowersOfTwo()
    ensures Pow2(8) == 0x100 && Pow2(16) == 0x1_0000
  {
    assert Pow2(4) == 16 && Pow2(8) == 256;
    assert Pow2(12) == 4096;
  }

  lemma MaskValue()
    ensures Value(0xFF) == 0xFF && Value(0xFFFF) == 0xFFFF
  {
  }

  /** Keeping the low `k` bits takes the remainder by 2^k. */
  lemma {:induction false} MaskLowBits(n: nat, k: nat, p: nat)
    requires p == Pow2(k)
    ensures And(FromNat(n), FromNat(p - 1)) == FromNat(n % p)
    decreases k
  {
    hide FromNat, And, Append;
    if k == 0 {
      FromNatZero();
      MaskNothing(FromNat(n));
    } else {
      var h, q := n / 2, Pow2(k - 1);
      MaskLowBits(h, k - 1, q);
      FromNatUnfold(h);
      FromNatUnfold(q - 1);
      FromNatUnfold(h % q);
      MaskAppend(FromNat(h), FromNat(q - 1));
      RemainderOfDouble(n, h, q);
      assert 2 * q - 1 == 2 * (q - 1) + 1;
    }
  }

  lemma MaskNothing(x: bv32)
    ensures And(x, 0) == 0
  {
  }

  lemma MaskAppend(x: bv32, y: bv32)
    ensures And(Append(x, false), Append(y, true)) == Append(And(x, y), false)
    ensures And(Append(x, true), Append(y, true)) == Append(And(x, y), true)
  {
    hide And, Append;
    MaskEven(x, y);
    MaskOdd(x, y);
  }

  lemma MaskEven(x: bv32, y: bv32)
    ensures And(Append(x, false), Append(y, true)) == Append(And(x, y), false)
  {
  }

  lemma MaskOdd(x: bv32, y: bv32)
    ensures And(Append(x, true), Append(y, true)) == Append(And(x, y), true)
  {
  }

  lemma RemainderOfDouble(n: nat, h: nat, q: nat)
    requires q > 0 && h == n / 2
    ensures n == 2 * h ==> n % (2 * q) == 2 * (h % q)
    ensures n == 2 * h + 1 ==> n % (2 * q) == 2 * (h % q) + 1
    ensures n == 2 * h || n == 2 * h + 1
  {
    DivModExact(h, q);
    DivModExact(n, 2 * q);
    var d := h / q;
    assert n == 2 * q * d + (2 * (h % q) + n % 2);
    DivUnique(n, 2 * q, d, 2 * (h % q) + n % 2);
  }

  /** The number in `[-p/2, p/2)` that agrees with `v` modulo `p`. */
  function SignedRemainder(v: nat, p: nat): int
    requires p > 0
  {
    if 2 * (v % p) < p then v % p else v % p - p
  }

  /** Loads of bytes and halfwords extend: zero extension is the remainder, sign extension the signed one. */
  lemma ExtendedMeans(v: bv32)
    ensures Value(Extended(4, v)) == Value(v) % 0x100
    ensures Value(Extended(5, v)) == Value(v) % 0x1_0000
    ensures Signed(Extended(0, v)) == SignedRemainder(Value(v), 0x100)
    ensures Signed(Extended(1, v)) == SignedRemainder(Value(v), 0x1_0000)
    ensures Extended(2, v) == v
  {
    hide Value, Signed, And, SignExtend8, SignExtend16, ZeroExtend8, ZeroExtend16, LowByte, LowHalf;
    LowBitsAreRemainder(v);
    ZeroForms(v);
    SignedByteMeans(v);
    SignedHalfMeans(v);
  }

  lemma SignedByteMeans(v: bv32)
    ensures Signed(SignExtend8(LowByte(v))) == SignedRemainder(Value(v), 0x100)
  {
    hide Value, Signed, And, Plus, Below, SignExtend8, LowByte;
    var b := And(v, 0xFF);
    LowBitsAreRemainder(v);
    SignForm8(v);
    HighValues();
    UnsignedLessIsLess(b, 0x80);
    SumIsModular(0xFFFF_FF00, b);
    SignedValue(SignExtend8(LowByte(v)));
  }

  lemma SignedHalfMeans(v: bv32)
    ensures Signed(SignExtend16(LowHalf(v))) == SignedRemainder(Value(v), 0x1_0000)
  {
    hide Value, Signed, And, Plus, Below, SignExtend16, LowHalf;
    var h := And(v, 0xFFFF);
    LowBitsAreRemainder(v);
    SignForm16(v);
    HighValues();
    UnsignedLessIsLess(h, 0x8000);
    SumIsModular(0xFFFF_0000, h);
    SignedValue(SignExtend16(LowHalf(v)));
  }

  lemma ZeroForms(v: bv32)
    ensures ZeroExtend8(LowByte(v)) == And(v, 0xFF) && ZeroExtend16(LowHalf(v)) == And(v, 0xFFFF)
  {
  }

  lemma SignForm8(v: bv32)
    ensures var b := And(v, 0xFF); SignExtend8(LowByte(v)) == if Below(b, 0x80) then b else Plus(0xFFFF_FF00, b)
  {
  }

  lemma SignForm16(v: bv32)
    ensures var h := And(v, 0xFFFF); SignExtend16(LowHalf(v)) == if Below(h, 0x8000) then h else Plus(0xFFFF_0000, h)
  {
    hide And, Below, Plus, LowHalf;
    TopOfHalf(v);
    PositiveHalf(v);
    NegativeHalf(v);
  }

  lemma TopOfHalf(v: bv32)
    ensures LowHalf(v) & 0x8000 == 0 <==> Below(And(v, 0xFFFF), 0x8000)
  {
  }

  lemma PositiveHalf(v: bv32)
    ensures LowHalf(v) as bv32 == And(v, 0xFFFF)
  {
  }

  lemma NegativeHalf(v: bv32)
    ensures 0xFFFF_0000 | (LowHalf(v) as bv32) == Plus(0xFFFF_0000, And(v, 0xFFFF))
  {
    hide Plus, LowHalf, And;
    PositiveHalf(v);
    DisjointHalves(v);
  }

  lemma DisjointHalves(v: bv32)
    ensures 0xFFFF_0000 | And(v, 0xFFFF) == Plus(0xFFFF_0000, And(v, 0xFFFF))
  {
    RawDisjoint(v);
  }

  lemma RawDisjoint(v: bv32)
    ensures 0xFFFF_0000 | (v & 0xFFFF) == 0xFFFF_0000 + (v & 0xFFFF)
  {
  }

  lemma HighValues()
    ensures Value(0x80) == 0x80 && Value(0x8000) == 0x8000
    ensures Value(0xFFFF_FF00) == 0xFFFF_FF00 && Value(0xFFFF_0000) == 0xFFFF_0000
  {
  }

  // ---- Accesses that start below the window are byte accesses ----

  lemma WordIsFourBytes(o: Oracle, s: Store, a: U32, v: bv32)
    requires a < 0xFFFF_0000
    ensures var b := ByteLoads(o, s, a, 4);
            Load32(o, s, a) == Read(Word(b.val[0], b.val[1], b.val[2], b.val[3]), b.st)
    ensures Store32(s, a, v) == ByteStores(s, a, [Byte(v, 0), Byte(v, 1), Byte(v, 2), Byte(v, 3)])
  {
    hide Word, Byte, Load8, Store8, Next, ByteLoads, ByteStores;
    var s1 := Load8(o, s, a).st;
    var s2 := Load8(o, s1, Next(a)).st;
    var s3 := Load8(o, s2, Next(Next(a))).st;
    LoadsTurn(o, s, a, 4);
    LoadsTurn(o, s1, Next(a), 3);
    LoadsTurn(o, s2, Next(Next(a)), 2);
    LoadsTurn(o, s3, Next(Next(Next(a))), 1);
    NoLoads(o, Load8(o, s3, Next(Next(Next(a)))).st, Next(Next(Next(Next(a)))));
    FourStores(s, a, Byte(v, 0), Byte(v, 1), Byte(v, 2), Byte(v, 3));
  }

  lemma FourStores(s: Store, a: U32, b0: bv8, b1: bv8, b2: bv8, b3: bv8)
    ensures ByteStores(s, a, [b0, b1, b2, b3]) ==
            Store8(Store8(Store8(Store8(s, a, b0), Next(a), b1), Next(Next(a)), b2), Next(Next(Next(a))), b3)
  {
    hide Store8, Next, ByteStores;
    var s1 := Store8(s, a, b0);
    var s2 := Store8(s1, Next(a), b1);
    StoresTurn(s, a, [b0, b1, b2, b3]);
    assert [b0, b1, b2, b3][1..] == [b1, b2, b3];
    StoresTurn(s1, Next(a), [b1, b2, b3]);
    assert [b1, b2, b3][1..] == [b2, b3];
    TwoStores(s2, Next(Next(a)), b2, b3);
  }

  lemma TwoStores(s: Store, a: U32, b0: bv8, b1: bv8)
    ensures ByteStores(s, a, [b0, b1]) == Store8(Store8(s, a, b0), Next(a), b1)
  {
    hide Store8, Next, ByteStores;
    StoresTurn(s, a, [b0, b1]);
    assert [b0, b1][1..] == [b1];
    StoresTurn(Store8(s, a, b0), Next(a), [b1]);
    assert [b1][1..] == [];
    NoStores(Store8(Store8(s, a, b0), Next(a), b1), Next(Next(a)));
  }

  lemma HalfIsTwoBytes(o: Oracle, s: Store, a: U32, v: bv16)
    requires a < 0xFFFF_0000
    ensures var b := ByteLoads(o, s, a, 2); Load16(o, s, a) == Read(Half(b.val[0], b.val[1]), b.st)
    ensures Store16(s, a, v) == ByteStores(s, a, [Byte16(v, 0), Byte16(v, 1)])
  {
    hide Half, Byte16, Load8, Store8, Next, ByteLoads, ByteStores;
    var s1 := Load8(o, s, a).st;
    LoadsTurn(o, s, a, 2);
    LoadsTurn(o, s1, Next(a), 1);
    NoLoads(o, Load8(o, s1, Next(a)).st, Next(Next(a)));
    TwoStores(s, a, Byte16(v, 0), Byte16(v, 1));
  }

  // ---- Instructions in the window ----

  /** The effective address of a load or store, modulo 2^32. */
  function Effective(m: Machine, rs1: bv5, imm: bv32): U32 { (Value(ReadReg(m, rs1)) + Value(imm)) % WORD }

  lemma EffectiveAddress(m: Machine, rs1: bv5, imm: bv32)
    ensures Value(Address(m, rs1, imm)) == Effective(m, rs1, imm)
  {
    hide Value, Plus, ReadReg;
    SumIsModular(ReadReg(m, rs1), imm);
  }

  /** `m` having told its host `events`, and past a 32-bit instruction. */
  function Told(m: Machine, events: seq<Event>): Machine {
    m.(st := m.st.(events := m.st.events + events), pc := Plus(m.pc, 4))
  }

  function Size(funct3: bv3): nat
    requires funct3 in {0, 1, 2, 4, 5}
  {
    if funct3 == 0 || funct3 == 4 then 1 else if funct3 == 1 || funct3 == 5 then 2 else 4
  }

  /** In the window an access is one device call. */
  lemma WindowLoads(o: Oracle, s: Store, a: U32)
    requires a >= 0xFFFF_0000
    ensures Load8(o, s, a) == Read(LowByte(o.mmioRead(s.events, a, 1)), s.(events := s.events + [MmioRead(a, 1)]))
    ensures Load16(o, s, a) == Read(LowHalf(o.mmioRead(s.events, a, 2)), s.(events := s.events + [MmioRead(a, 2)]))
    ensures Load32(o, s, a) == Read(o.mmioRead(s.events, a, 4), s.(events := s.events + [MmioRead(a, 4)]))
  {
    hide ByteLoad16, ByteLoad32, LowHalf;
  }

  lemma WindowStores(s: Store, a: U32, v: bv32)
    requires a >= 0xFFFF_0000
    ensures Store8(s, a, LowByte(v)) == s.(events := s.events + [MmioWrite(a, 1, And(v, 0xFF))])
    ensures Store16(s, a, LowHalf(v)) == s.(events := s.events + [MmioWrite(a, 2, And(v, 0xFFFF))])
    ensures Store32(s, a, v) == s.(events := s.events + [MmioWrite(a, 4, v)])
  {
    hide ByteStore16, ByteStore32, LowHalf, LowByte, And;
    ZeroForms(v);
    ZeroExtendForms(LowByte(v), LowHalf(v));
  }

  lemma ZeroExtendForms(b: bv8, h: bv16)
    ensures ZeroExtend8(b) == b as bv32 && ZeroExtend16(h) == h as bv32
  {
  }

  lemma ExtendedForms(v: bv32)
    ensures Extended(0, v) == SignExtend8(LowByte(v)) && Extended(4, v) == ZeroExtend8(LowByte(v))
    ensures Extended(1, v) == SignExtend16(LowHalf(v)) && Extended(5, v) == ZeroExtend16(LowHalf(v))
    ensures Extended(2, v) == v
  {
    hide SignExtend8, SignExtend16, ZeroExtend8, ZeroExtend16, LowByte, LowHalf;
  }

  /** A load in the window is one device read of its width; rd gets the answer, extended, and no byte changes. */
  lemma DeviceLoad(o: Oracle, m: Machine, rd: bv5, funct3: bv3, rs1: bv5, imm: bv32)
    requires funct3 in {0, 1, 2, 4, 5} && Fits12(imm) && Effective(m, rs1, imm) >= 0xFFFF_0000
    ensures var a, size := Effective(m, rs1, imm), Size(funct3);
            Execute32(o, m, EncodeI(OP_LOAD, rd, funct3, rs1, imm)) ==
            Ok(WriteReg(Told(m, [MmioRead(a, size)]), rd, Extended(funct3, o.mmioRead(m.st.events, a, size))))
  {
    hide Dispatch, Decode, EncodeI, IImm, Fits12, ReadReg, WriteReg, Address, Load8, Load16, Load32, Effective;
    hide SignExtend8, SignExtend16, ZeroExtend8, ZeroExtend16, LowByte, LowHalf, Value, Plus, Extended;
    var raw := EncodeI(OP_LOAD, rd, funct3, rs1, imm);
    var addr := Address(m, rs1, imm);
    DecodeI(OP_LOAD, rd, funct3, rs1, imm);
    RouteLoad(o, m, Decode(raw), Plus(m.pc, 4));
    EffectiveAddress(m, rs1, imm);
    WindowLoads(o, m.st, Effective(m, rs1, imm));
    var answer := o.mmioRead(m.st.events, Value(addr), Size(funct3));
    ExtendedForms(answer);
    PcAfterWrite(m.(st := m.st.(events := m.st.events + [MmioRead(Value(addr), Size(funct3))])), rd,
                 Extended(funct3, answer), Plus(m.pc, 4));
  }

  lemma PcAfterWrite(m: Machine, rd: bv5, v: bv32, pc: bv32)
    ensures WriteReg(m, rd, v).(pc := pc) == WriteReg(m.(pc := pc), rd, v)
  {
  }

  /** A store in the window is one device write of its width with the low bits of rs2, and no byte changes. */
  lemma DeviceStore(o: Oracle, m: Machine, funct3: bv3, rs1: bv5, rs2: bv5, imm: bv32)
    requires funct3 in {0, 1, 2} && Fits12(imm) && Effective(m, rs1, imm) >= 0xFFFF_0000
    ensures var a, v := Effective(m, rs1, imm), ReadReg(m, rs2);
            var val := if funct3 == 0 then And(v, 0xFF) else if funct3 == 1 then And(v, 0xFFFF) else v;
            && Execute32(o, m, EncodeS(OP_STORE, funct3, rs1, rs2, imm)) ==
               Ok(Told(m, [MmioWrite(a, Size(funct3), val)]))
            && Value(val) == (if funct3 == 0 then Value(v) % 0x100 else if funct3 == 1 then Value(v) % 0x1_0000
               else Value(v))
  {
    hide Dispatch, Decode, EncodeS, SImm, Fits12, ReadReg, Address, Store8, Store16, Store32, Effective;
    hide LowByte, LowHalf, Value, Plus, And;
    var raw := EncodeS(OP_STORE, funct3, rs1, rs2, imm);
    DecodeS(OP_STORE, funct3, rs1, rs2, imm);
    RouteStore(o, m, Decode(raw), Plus(m.pc, 4));
    EffectiveAddress(m, rs1, imm);
    WindowStores(m.st, Effective(m, rs1, imm), ReadReg(m, rs2));
    LowBitsAreRemainder(ReadReg(m, rs2));
  }

  /** The device calls of an atomic: its read, and then its write unless it is LR.W. */
  function AtomicCalls(a: U32, funct5: bv7, was: bv32, src: bv32): seq<Event> {
    if funct5 == 0x02 then [MmioRead(a, 4)] else [MmioRead(a, 4), MmioWrite(a, 4, AmoValue(funct5, was, src))]
  }

  /** An atomic in the window makes those calls; rd gets the answer, or zero for SC.W, and no byte changes. */
  lemma DeviceAmo(o: Oracle, m: Machine, rd: bv5, funct3: bv3, rs1: bv5, rs2: bv5, funct7: bv7, f: bv7)
    requires f == funct7 >> 2 && IsAmo(f) && Effective(m, rs1, 0) >= 0xFFFF_0000
    ensures var a := Effective(m, rs1, 0);
            var answer := o.mmioRead(m.st.events, a, 4);
            Execute32(o, m, EncodeR(OP_AMO, rd, funct3, rs1, rs2, funct7)) ==
            Ok(WriteReg(Told(m, AtomicCalls(a, f, answer, ReadReg(m, rs2))), rd, if f == 0x03 then 0 else answer))
  {
    hide Dispatch, Decode, EncodeR, IsAmo, AmoValue, ReadReg, WriteReg, Load32, Store32, Value, Plus, Effective;
    DecodeR(OP_AMO, rd, funct3, rs1, rs2, funct7);
    var d := Decode(EncodeR(OP_AMO, rd, funct3, rs1, rs2, funct7));
    assert Funct5(d) == f;
    hide Funct5;
    RouteAmo(o, m, d, Plus(m.pc, 4));
    RegisterAddress(m, rs1);
    var a := Effective(m, rs1, 0);
    WindowLoads(o, m.st, a);
    var answer := o.mmioRead(m.st.events, a, 4);
    var val := AmoValue(f, answer, ReadReg(m, rs2));
    var s1 := m.st.(events := m.st.events + [MmioRead(a, 4)]);
    WindowStores(s1, a, val);
    assert s1.events + [MmioWrite(a, 4, val)] == m.st.events + [MmioRead(a, 4), MmioWrite(a, 4, val)];
    PcAfterWrite(m.(st := s1), rd, answer, Plus(m.pc, 4));
    PcAfterWrite(m.(st := s1.(events := s1.events + [MmioWrite(a, 4, val)])), rd, if f == 0x03 then 0 else answer,
                 Plus(m.pc, 4));
  }

  lemma RegisterAddress(m: Machine, rs1: bv5)
    ensures Effective(m, rs1, 0) == Value(ReadReg(m, rs1))
  {
    hide Value, ReadReg;
    ZeroValue();
  }

  // ---- Floating-point accesses ----

  /** A double is its two words, the low one in the low bits. */
  lemma WordsOfDouble(x: bv64)
    ensures x == ((HighWord(x) as bv64) << 32) | (LowWord(x) as bv64)
  {
  }

  lemma PairIsDouble(low: bv32, high: bv32)
    ensures LowWord(Pair(low, high)) == low && HighWord(Pair(low, high)) == high
  {
  }

  /** A boxed single has its bits in the low word and ones above. */
  lemma BoxedWords(x: bv32)
    ensures LowWord(Boxed(x)) == x && HighWord(Boxed(x)) == 0xFFFF_FFFF
  {
  }

  /** A NaN: sign aside, more than infinity. */
  lemma NanIsAboveInfinity(bits: bv64)
    ensures IsNan64(bits) <==> bits << 1 > 0xFFE0_0000_0000_0000
  {
  }

  /** In memory the low word of a double comes first. */
  lemma DoubleIsLittleEndian(o: Oracle, m: Machine, a: bv32, bits: bv64)
    requires Value(a) + 8 <= 0xFFFF_0000
    ensures var s := PutDouble(m, a, bits).st;
            Load32(o, s, Value(a)).val == LowWord(bits) && Load32(o, s, Value(a) + 4).val == HighWord(bits)
  {
    hide Value, Plus, Pair, LowWord, HighWord, Load32, Store32, OnlyRange;
    var x, low, high := Value(a), LowWord(bits), HighWord(bits);
    SecondWord(a);
    var s1 := Store32(m.st, x, low);
    WordCoherent(o, m.st, x, low);
    WordCoherent(o, s1, x + 4, high);
    WordElsewhere(o, s1, Store32(s1, x + 4, high), x, x + 4);
  }

  /** FLW and FSW in the window. */
  lemma DeviceFloatLoad(o: Oracle, m: Machine, rd: bv5, rs1: bv5, imm: bv32)
    requires Fits12(imm) && Effective(m, rs1, imm) >= 0xFFFF_0000
    ensures var a := Effective(m, rs1, imm);
            Execute32(o, m, EncodeI(OP_LOAD_FP, rd, 2, rs1, imm)) ==
            Ok(SetFreg(Told(m, [MmioRead(a, 4)]), rd, Boxed(o.mmioRead(m.st.events, a, 4))))
  {
    hide Dispatch, Decode, EncodeI, Fits12, Address, Load32, Effective, Boxed, Value, Plus;
    LoadFloatMeans(o, m, rd, rs1, imm, Plus(m.pc, 4));
    EffectiveAddress(m, rs1, imm);
    WindowLoads(o, m.st, Effective(m, rs1, imm));
  }

  lemma DeviceFloatStore(o: Oracle, m: Machine, rs1: bv5, rs2: bv5, imm: bv32)
    requires Fits12(imm) && Effective(m, rs1, imm) >= 0xFFFF_0000
    ensures Execute32(o, m, EncodeS(OP_STORE_FP, 2, rs1, rs2, imm)) ==
            Ok(Told(m, [MmioWrite(Effective(m, rs1, imm), 4, LowWord(m.fregs[rs2 as int]))]))
  {
    hide Dispatch, Decode, EncodeS, Fits12, Address, Store32, Effective, LowWord, Value, Plus;
    StoreFloatMeans(o, m, rs1, rs2, imm, Plus(m.pc, 4));
    EffectiveAddress(m, rs1, imm);
    WindowStores(m.st, Effective(m, rs1, imm), LowWord(ReadFreg(m, rs2)));
  }

  lemma SecondAddress(m: Machine, rs1: bv5, imm: bv32)
    requires Effective(m, rs1, imm) + 8 <= WORD
    ensures Value(Plus(Address(m, rs1, imm), 4)) == Effective(m, rs1, imm) + 4
  {
    hide Value, Plus, Effective, Address;
    EffectiveAddress(m, rs1, imm);
    FourIsFour();
    SumIsModular(Address(m, rs1, imm), 4);
  }

  /** FLD and FSD in the window are two word calls, the low word first. */
  lemma DeviceDoubleLoad(o: Oracle, m: Machine, rd: bv5, rs1: bv5, imm: bv32)
    requires Fits12(imm) && 0xFFFF_0000 <= Effective(m, rs1, imm) <= WORD - 8
    ensures var a := Effective(m, rs1, imm);
            var low := o.mmioRead(m.st.events, a, 4);
            var high := o.mmioRead(m.st.events + [MmioRead(a, 4)], a + 4, 4);
            Execute32(o, m, EncodeI(OP_LOAD_FP, rd, 3, rs1, imm)) ==
            Ok(WriteF64(Told(m, [MmioRead(a, 4), MmioRead(a + 4, 4)]), rd, Pair(low, high)))
  {
    hide Dispatch, Decode, EncodeI, Fits12, Address, Load32, Effective, Pair, Value, Plus, IsNan64;
    var a := Effective(m, rs1, imm);
    LoadDoubleMeans(o, m, rd, rs1, imm, Plus(m.pc, 4));
    EffectiveAddress(m, rs1, imm);
    SecondAddress(m, rs1, imm);
    WindowLoads(o, m.st, a);
    WindowLoads(o, m.st.(events := m.st.events + [MmioRead(a, 4)]), a + 4);
    assert m.st.events + [MmioRead(a, 4)] + [MmioRead(a + 4, 4)] == m.st.events + [MmioRead(a, 4), MmioRead(a + 4, 4)];
  }

  lemma DeviceDoubleStore(o: Oracle, m: Machine, rs1: bv5, rs2: bv5, imm: bv32)
    requires Fits12(imm) && 0xFFFF_0000 <= Effective(m, rs1, imm) <= WORD - 8
    ensures var a, bits := Effective(m, rs1, imm), m.fregs[rs2 as int];
            Execute32(o, m, EncodeS(OP_STORE_FP, 3, rs1, rs2, imm)) ==
            Ok(Told(m, [MmioWrite(a, 4, LowWord(bits)), MmioWrite(a + 4, 4, HighWord(bits))]))
  {
    hide Dispatch, Decode, EncodeS, Fits12, Address, Store32, Effective, LowWord, HighWord, Value, Plus;
    var a, bits := Effective(m, rs1, imm), m.fregs[rs2 as int];
    StoreDoubleMeans(o, m, rs1, rs2, imm, Plus(m.pc, 4));
    EffectiveAddress(m, rs1, imm);
    SecondAddress(m, rs1, imm);
    WindowStores(m.st, a, LowWord(bits));
    WindowStores(m.st.(events := m.st.events + [MmioWrite(a, 4, LowWord(bits))]), a + 4, HighWord(bits));
    assert m.st.events + [MmioWrite(a, 4, LowWord(bits))] + [MmioWrite(a + 4, 4, HighWord(bits))] ==
           m.st.events + [MmioWrite(a, 4, LowWord(bits)), MmioWrite(a + 4, 4, HighWord(bits))];
  }
}
