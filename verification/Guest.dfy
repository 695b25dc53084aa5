/**
 * Guest programs as the benchmarks build them: the encoders, a program as a
 * halfword stream in memory, what each of its instructions does when it is
 * fetched and executed there, and what a whole run of them is to `RunSlice`.
 */
module Guest {
  import opened Wrappers
  import opened Bits
  import opened HostImports
  import opened FlatMemory
  import opened PagedMemory
  import opened Instructions
  import opened Machine
  import opened Compressed
  import opened Formats
  import opened Steps
  import opened RunLoop
  import opened Slicing
  import opened Arithmetic
  import Coherence

  const PROGRAM_BASE: U32 := 0x1000

  // ---- Encoders ----

  function Addi(rd: bv5, rs1: bv5, imm: bv32): bv32 { EncodeI(OP_IMM, rd, 0, rs1, imm) }
  function Xori(rd: bv5, rs1: bv5, imm: bv32): bv32 { EncodeI(OP_IMM, rd, 4, rs1, imm) }
  function Slli(rd: bv5, rs1: bv5, shamt: bv32): bv32 { EncodeI(OP_IMM, rd, 1, rs1, shamt) }
  function Add(rd: bv5, rs1: bv5, rs2: bv5): bv32 { EncodeR(OP_OP, rd, 0, rs1, rs2, 0) }
  function Lw(rd: bv5, rs1: bv5, imm: bv32): bv32 { EncodeI(OP_LOAD, rd, 2, rs1, imm) }
  function Sw(rs1: bv5, rs2: bv5, imm: bv32): bv32 { EncodeS(OP_STORE, 2, rs1, rs2, imm) }
  function Bnez(rs1: bv5, offset: bv32): bv32 { EncodeB(OP_BRANCH, 1, rs1, 0, offset) }
  function Lui(rd: bv5, imm20: bv32): bv32 { ((imm20 & 0xF_FFFF) << 12) | ((rd as bv32) << 7) | 0x37 }

  /** `c.addi rd, imm`. */
  function CAddi(rd: bv5, imm: bv32): bv16 {
    ((((imm >> 5) & 1) as bv16) << 12) | ((rd as bv16) << 7) | (((imm & 0x1F) as bv16) << 2) | 1
  }

  /** The high and low parts that `li` splits a value into. */
  function High(v: bv32): bv32 { (v + 0x800) >> 12 }
  function Low(v: bv32): bv32 { v - (High(v) << 12) }

  /** An instruction of either width. */
  datatype Inst = Wide(word: bv32) | Narrow(half: bv16)

  function Li(rd: bv5, v: bv32): (r: seq<Inst>)
    ensures |r| == 2 && forall i :: 0 <= i < |r| ==> r[i].Wide?
  {
    [Wide(Lui(rd, High(v))), Wide(Addi(rd, rd, Low(v)))]
  }

  function Exit(): (r: seq<Inst>)
    ensures |r| == 3 && forall i :: 0 <= i < |r| ==> r[i].Wide?
  {
    [Wide(Addi(17, 0, 93)), Wide(Addi(10, 0, 0)), Wide(ECALL)]
  }

  // ---- The halfword stream ----

  function HighHalf(word: bv32): bv16 { (word >> 16) as bv16 }

  function HalvesOf(i: Inst): seq<bv16> {
    match i
    case Wide(w) => [LowHalf(w), HighHalf(w)]
    case Narrow(h) => [h]
  }

  function Image(insts: seq<Inst>): seq<bv16>
    decreases |insts|
  {
    if insts == [] then []
    else Image(insts[..|insts| - 1]) + HalvesOf(insts[|insts| - 1])
  }

  /** Byte offset of instruction `k`. */
  function Start(insts: seq<Inst>, k: nat): nat
    requires k <= |insts|
  {
    2 * |Image(insts[..k])|
  }

  function Size(i: Inst): nat { if i.Wide? then 4 else 2 }

  lemma StartNext(insts: seq<Inst>, k: nat)
    requires k < |insts|
    ensures Start(insts, 0) == 0 && Start(insts, k + 1) == Start(insts, k) + Size(insts[k])
  {
    hide LowHalf, HighHalf;
    assert insts[..k + 1][..k] == insts[..k];
    assert insts[..0] == [];
  }

  /** In a program of 32-bit instructions every offset is a multiple of four. */
  lemma {:induction false} WideStarts(insts: seq<Inst>, k: nat)
    requires k <= |insts| && forall i :: 0 <= i < k ==> insts[i].Wide?
    ensures Start(insts, k) == 4 * k
    decreases k
  {
    if k == 0 {
      assert insts[..0] == [];
    } else {
      WideStarts(insts, k - 1);
      StartNext(insts, k - 1);
    }
  }

  /** The halfwords of instruction `k` stand at its offset. */
  lemma {:induction false} ImageAt(insts: seq<Inst>, k: nat)
    requires k < |insts|
    ensures var at := |Image(insts[..k])|;
            && at + |HalvesOf(insts[k])| <= |Image(insts)|
            && Image(insts)[at..at + |HalvesOf(insts[k])|] == HalvesOf(insts[k])
    decreases |insts|
  {
    hide LowHalf, HighHalf;
    var init := insts[..|insts| - 1];
    if k < |insts| - 1 {
      ImageAt(init, k);
      assert init[..k] == insts[..k];
    } else {
      assert insts[..k] == init;
    }
  }

  // ---- A program in memory ----

  function WordAt(bytes: Flat, a: int): bv32 {
    Word(At(bytes, a), At(bytes, a + 1), At(bytes, a + 2), At(bytes, a + 3))
  }

  function HalfAt(bytes: Flat, a: int): bv16 { Half(At(bytes, a), At(bytes, a + 1)) }

  predicate InstAt(bytes: Flat, a: int, i: Inst) {
    match i
    case Wide(w) => WordAt(bytes, a) == w
    case Narrow(h) => HalfAt(bytes, a) == h
  }

  ghost predicate Holds(bytes: Flat, insts: seq<Inst>) {
    forall k :: 0 <= k < |insts| ==> InstAt(bytes, PROGRAM_BASE + Start(insts, k), insts[k])
  }

  /** The halfword stream lies in memory from the program base on. */
  ghost predicate Streams(bytes: Flat, halves: seq<bv16>) {
    forall k :: 0 <= k < |halves| ==> HalfAt(bytes, PROGRAM_BASE + 2 * k) == halves[k]
  }

  lemma WordOfHalves(b0: bv8, b1: bv8, b2: bv8, b3: bv8, w: bv32)
    requires Half(b0, b1) == LowHalf(w) && Half(b2, b3) == HighHalf(w)
    ensures Word(b0, b1, b2, b3) == w
  {
  }

  lemma StreamHolds(bytes: Flat, insts: seq<Inst>)
    requires Streams(bytes, Image(insts))
    ensures Holds(bytes, insts)
  {
    hide LowHalf, HighHalf, Half, Word, Image;
    forall k | 0 <= k < |insts|
      ensures InstAt(bytes, PROGRAM_BASE + Start(insts, k), insts[k])
    {
      ImageAt(insts, k);
      var at, a := |Image(insts[..k])|, PROGRAM_BASE + Start(insts, k);
      var here := Image(insts)[at..at + |HalvesOf(insts[k])|];
      assert here[0] == Image(insts)[at] == HalfAt(bytes, PROGRAM_BASE + 2 * at);
      if insts[k].Wide? {
        assert here[1] == Image(insts)[at + 1] == HalfAt(bytes, PROGRAM_BASE + 2 * (at + 1));
        assert PROGRAM_BASE + 2 * (at + 1) == a + 2;
        WordOfHalves(At(bytes, a), At(bytes, a + 1), At(bytes, a + 2), At(bytes, a + 3), insts[k].word);
      }
    }
  }

  // ---- Building and loading ----

  /** Memory after writing halfwords one after the other, wherever that leads. */
  function StoreHalves(s: Store, a: U32, halves: seq<bv16>): Store
    decreases |halves|
  {
    if halves == [] then s else StoreHalves(Store16(s, a, halves[0]), Wrap(a + 2), halves[1..])
  }

  lemma StoredHalf(s: Store, a: U32, v: bv16)
    requires a + 2 <= MMIO_BASE
    ensures var s' := Store16(s, a, v);
            && s' == s.(bytes := s'.bytes)
            && HalfAt(s'.bytes, a) == v
            && forall x: int :: x < a || a + 2 <= x ==> At(s'.bytes, x) == At(s.bytes, x)
  {
    hide Half, Byte16;
    Coherence.BytesOfHalf(v);
  }

  /** Below the device window the stream is in memory afterwards, and nothing else has changed. */
  lemma {:induction false} StoredHalves(s: Store, a: U32, halves: seq<bv16>)
    requires a + 2 * |halves| <= MMIO_BASE
    ensures var s' := StoreHalves(s, a, halves);
            && s' == s.(bytes := s'.bytes)
            && (forall k :: 0 <= k < |halves| ==> HalfAt(s'.bytes, a + 2 * k) == halves[k])
            && (forall x: int :: x < a || a + 2 * |halves| <= x ==> At(s'.bytes, x) == At(s.bytes, x))
    decreases |halves|
  {
    hide Half, Store16, At;
    if halves == [] {
    } else {
      var s1 := Store16(s, a, halves[0]);
      StoredHalf(s, a, halves[0]);
      assert Wrap(a + 2) == a + 2;
      StoredHalves(s1, a + 2, halves[1..]);
      var s' := StoreHalves(s, a, halves);
      forall k | 0 <= k < |halves|
        ensures HalfAt(s'.bytes, a + 2 * k) == halves[k]
      {
        if k > 0 {
          assert HalfAt(s'.bytes, (a + 2) + 2 * (k - 1)) == halves[1..][k - 1];
          assert (a + 2) + 2 * (k - 1) == a + 2 * k;
        }
      }
    }
  }

  class Program {
    var halfwords: seq<bv16>
    /** The instructions pushed so far. */
    ghost var insts: seq<Inst>

    ghost predicate Valid()
      reads this
    {
      halfwords == Image(insts)
    }

    constructor ()
      ensures Valid() && insts == [] && halfwords == []
    {
      halfwords, insts := [], [];
    }

    method Push32(word: bv32)
      requires Valid()
      modifies this
      ensures Valid() && insts == old(insts) + [Wide(word)] && LenBytes() == old(LenBytes()) + 4
    {
      hide LowHalf, HighHalf;
      halfwords := halfwords + [LowHalf(word), HighHalf(word)];
      insts := insts + [Wide(word)];
      assert insts[..|insts| - 1] == old(insts);
    }

    method Push16(half: bv16)
      requires Valid()
      modifies this
      ensures Valid() && insts == old(insts) + [Narrow(half)] && LenBytes() == old(LenBytes()) + 2
    {
      halfwords := halfwords + [half];
      insts := insts + [Narrow(half)];
      assert insts[..|insts| - 1] == old(insts);
    }

    method PushLi(rd: bv5, v: bv32)
      requires Valid()
      modifies this
      ensures Valid() && insts == old(insts) + Li(rd, v) && LenBytes() == old(LenBytes()) + 8
    {
      hide Lui, Addi, Image, High, Low;
      Push32(Lui(rd, High(v)));
      Push32(Addi(rd, rd, Low(v)));
    }

    method PushExit()
      requires Valid()
      modifies this
      ensures Valid() && insts == old(insts) + Exit() && LenBytes() == old(LenBytes()) + 12
    {
      hide Addi, Image;
      Push32(Addi(17, 0, 93));
      Push32(Addi(10, 0, 0));
      Push32(ECALL);
    }

    /** Byte length so far: the branch offsets need it. */
    function LenBytes(): int
      reads this
    {
      2 * |halfwords|
    }

    /** Write the stream to memory, halfword by halfword. */
    method Load(mem: Memory, port: Port)
      modifies mem`pages, port`events
      ensures mem.View(port) == StoreHalves(old(mem.View(port)), PROGRAM_BASE, halfwords)
    {
      hide Store16, Contents, Wrap;
      ghost var end := StoreHalves(mem.View(port), PROGRAM_BASE, halfwords);
      WrapSteps(PROGRAM_BASE, 0);
      for i := 0 to |halfwords|
        invariant StoreHalves(mem.View(port), Wrap(PROGRAM_BASE + 2 * i), halfwords[i..]) == end
      {
        WrapSteps(PROGRAM_BASE, 2 * i);
        assert halfwords[i..][0] == halfwords[i] && halfwords[i..][1..] == halfwords[i + 1..];
        mem.WriteU16(port, Wrap(PROGRAM_BASE + 2 * i), halfwords[i]);
      }
    }
  }

  lemma WrapSteps(a: U32, i: nat)
    ensures Wrap(a + 0) == a && Wrap(Wrap(a + i) + 2) == Wrap(a + i + 2)
  {
  }

  /** What loading a program of moderate length establishes. */
  lemma Loaded(s: Store, insts: seq<Inst>)
    requires PROGRAM_BASE + 2 * |Image(insts)| <= MMIO_BASE
    ensures var s' := StoreHalves(s, PROGRAM_BASE, Image(insts));
            && s' == s.(bytes := s'.bytes) && Holds(s'.bytes, insts)
            && forall x: int :: x < PROGRAM_BASE || PROGRAM_BASE + 2 * |Image(insts)| <= x ==>
               At(s'.bytes, x) == At(s.bytes, x)
  {
    hide StoreHalves, Image, Holds, HalfAt, At;
    StoredHalves(s, PROGRAM_BASE, Image(insts));
    StreamHolds(StoreHalves(s, PROGRAM_BASE, Image(insts)).bytes, insts);
  }

  // ---- Fetching ----

  /** Address of instruction `k`, as a word. */
  function Pc(insts: seq<Inst>, k: nat): bv32
    requires k <= |insts|
  {
    FromNat(PROGRAM_BASE + Start(insts, k))
  }

  lemma LiteralWord(n: nat, x: bv32)
    requires n < WORD && Value(x) == n
    ensures FromNat(n) == x
  {
    hide FromNat, Value;
    FromNatValue(n);
    ValueIsInjective(FromNat(n), x);
  }

  lemma NextPc(insts: seq<Inst>, k: nat)
    requires k < |insts|
    ensures Plus(Pc(insts, k), if insts[k].Wide? then 4 else 2) == Pc(insts, k + 1)
  {
    hide FromNat, Plus, Start;
    StartNext(insts, k);
    FromNatPlus(PROGRAM_BASE + Start(insts, k), Size(insts[k]));
    LiteralWord(4, 4);
    LiteralWord(2, 2);
  }

  /** Going back from one instruction to an earlier one. */
  lemma BranchBack(insts: seq<Inst>, j: nat, k: nat, back: int)
    requires j <= |insts| && k <= |insts| && Start(insts, j) == Start(insts, k) + back && 0 < back < WORD
    ensures Plus(Pc(insts, j), Wrapped(-back)) == Pc(insts, k)
  {
    hide FromNat, Plus, Start;
    var x := PROGRAM_BASE + Start(insts, k);
    assert (-back) % WORD == WORD - back;
    FromNatPlus(x + back, WORD - back);
    FromNatPlus(x, WORD);
    WholeTurn();
    PlusZero(FromNat(x));
    assert x + back + (WORD - back) == x + WORD;
  }

  /** A word below the device window whose low bits are 11 is fetched whole, and nobody is told. */
  lemma FetchWord(o: Oracle, s: Store, a: U32)
    requires a + 4 <= MMIO_BASE && WordAt(s.bytes, a) & 3 == 3
    ensures TwoReadFetch(o, s, a) == Fetched(false, WordAt(s.bytes, a), s)
  {
    hide Word, Half, IsCompressed;
    LowBitsOfHalf(At(s.bytes, a), At(s.bytes, a + 1), At(s.bytes, a + 2), At(s.bytes, a + 3));
  }

  lemma LowBitsOfHalf(b0: bv8, b1: bv8, b2: bv8, b3: bv8)
    requires Word(b0, b1, b2, b3) & 3 == 3
    ensures !IsCompressed(Half(b0, b1))
  {
  }

  lemma FetchHalf(o: Oracle, s: Store, a: U32)
    requires a + 2 <= MMIO_BASE && IsCompressed(HalfAt(s.bytes, a))
    ensures TwoReadFetch(o, s, a) == Fetched(true, ZeroExtend16(HalfAt(s.bytes, a)), s)
  {
    hide Word, Half, IsCompressed, ZeroExtend16;
  }

  lemma HalfBack(h: bv16)
    ensures LowHalf(ZeroExtend16(h)) == h
  {
  }

  /** A machine about to execute instruction `k` of a program. */
  ghost predicate Ready(m: Machine, insts: seq<Inst>, k: nat) {
    && k < |insts|
    && Holds(m.st.bytes, insts)
    && Start(insts, k) < 0x1000
    && m.pc == Pc(insts, k)
  }

  lemma ExecutesWord(o: Oracle, m: Machine, insts: seq<Inst>, k: nat)
    requires Ready(m, insts, k) && insts[k].Wide? && insts[k].word & 3 == 3
    ensures FetchExecute(o, m) == Commit(Dispatch(o, m, Decode(insts[k].word), Pc(insts, k + 1)))
  {
    hide FromNat, Plus, Dispatch, Decode, TwoReadFetch, Value, WordAt, Start;
    var a := PROGRAM_BASE + Start(insts, k);
    FromNatValue(a);
    assert InstAt(m.st.bytes, a, insts[k]);
    FetchWord(o, m.st, a);
    NextPc(insts, k);
    assert m.(st := m.st) == m;
  }

  lemma ExecutesHalf(o: Oracle, m: Machine, insts: seq<Inst>, k: nat)
    requires Ready(m, insts, k) && insts[k].Narrow? && IsCompressed(insts[k].half)
    ensures FetchExecute(o, m) == Commit(Arm16(o, m, insts[k].half, Pc(insts, k + 1)))
  {
    hide FromNat, Plus, Arm16, TwoReadFetch, Value, HalfAt, Start, IsCompressed, LowHalf, ZeroExtend16;
    var a := PROGRAM_BASE + Start(insts, k);
    FromNatValue(a);
    assert InstAt(m.st.bytes, a, insts[k]);
    FetchHalf(o, m.st, a);
    HalfBack(insts[k].half);
    NextPc(insts, k);
    assert m.(st := m.st) == m;
  }

  // ---- What each instruction does ----

  lemma WordIsWide(opcode: bv7, rd: bv5, funct3: bv3, rs1: bv5, rs2: bv5, funct7: bv7, imm: bv32)
    requires opcode & 3 == 3
    ensures EncodeI(opcode, rd, funct3, rs1, imm) & 3 == 3
    ensures EncodeR(opcode, rd, funct3, rs1, rs2, funct7) & 3 == 3
    ensures EncodeS(opcode, funct3, rs1, rs2, imm) & 3 == 3
    ensures EncodeB(opcode, funct3, rs1, rs2, imm) & 3 == 3
    ensures EncodeU(opcode, rd, imm) & 3 == 3
  {
  }

  /** `m` after writing `rd` and moving on to instruction `k`. */
  function Wrote(m: Machine, rd: bv5, val: bv32, insts: seq<Inst>, k: nat): Machine
    requires k <= |insts|
  {
    WriteReg(m, rd, val).(pc := Pc(insts, k))
  }

  lemma AddiRuns(o: Oracle, m: Machine, insts: seq<Inst>, k: nat, rd: bv5, rs1: bv5, imm: bv32)
    requires Ready(m, insts, k) && insts[k] == Wide(Addi(rd, rs1, imm)) && Fits12(imm)
    ensures FetchExecute(o, m) == Ok(Wrote(m, rd, Plus(ReadReg(m, rs1), imm), insts, k + 1))
  {
    hide FetchExecute, Holds, Start, Dispatch, Decode, Fits12, ReadReg, WriteReg, Pc, Plus;
    hide EncodeI, EncodeR, EncodeS, EncodeB, EncodeU;
    WordIsWide(OP_IMM, rd, 0, rs1, 0, 0, imm);
    ExecutesWord(o, m, insts, k);
    OpImmMeans(o, m, rd, 0, rs1, imm, Pc(insts, k + 1));
  }

  lemma XoriRuns(o: Oracle, m: Machine, insts: seq<Inst>, k: nat, rd: bv5, rs1: bv5, imm: bv32)
    requires Ready(m, insts, k) && insts[k] == Wide(Xori(rd, rs1, imm)) && Fits12(imm)
    ensures FetchExecute(o, m) == Ok(Wrote(m, rd, Xor(ReadReg(m, rs1), imm), insts, k + 1))
  {
    hide FetchExecute, Holds, Start, Dispatch, Decode, Fits12, ReadReg, WriteReg, Pc, Xor;
    hide EncodeI, EncodeR, EncodeS, EncodeB, EncodeU;
    WordIsWide(OP_IMM, rd, 4, rs1, 0, 0, imm);
    ExecutesWord(o, m, insts, k);
    OpImmMeans(o, m, rd, 4, rs1, imm, Pc(insts, k + 1));
  }

  lemma SlliIsShift(rd: bv5, rs1: bv5, shamt: bv5)
    ensures Slli(rd, rs1, shamt as bv32) == EncodeR(OP_IMM, rd, 1, rs1, shamt, 0)
  {
  }

  lemma SlliRuns(o: Oracle, m: Machine, insts: seq<Inst>, k: nat, rd: bv5, rs1: bv5, shamt: bv5)
    requires Ready(m, insts, k) && insts[k] == Wide(Slli(rd, rs1, shamt as bv32))
    ensures FetchExecute(o, m) == Ok(Wrote(m, rd, Shl(ReadReg(m, rs1), shamt), insts, k + 1))
  {
    hide FetchExecute, Holds, Start, Dispatch, Decode, ReadReg, WriteReg, Pc, Shl;
    hide EncodeI, EncodeR, EncodeS, EncodeB, EncodeU;
    SlliIsShift(rd, rs1, shamt);
    WordIsWide(OP_IMM, rd, 1, rs1, shamt, 0, 0);
    ExecutesWord(o, m, insts, k);
    ShiftMeans(o, m, rd, 1, rs1, shamt, 0, Pc(insts, k + 1));
  }

  lemma AddRuns(o: Oracle, m: Machine, insts: seq<Inst>, k: nat, rd: bv5, rs1: bv5, rs2: bv5)
    requires Ready(m, insts, k) && insts[k] == Wide(Add(rd, rs1, rs2))
    ensures FetchExecute(o, m) == Ok(Wrote(m, rd, Plus(ReadReg(m, rs1), ReadReg(m, rs2)), insts, k + 1))
  {
    hide FetchExecute, Holds, Start, Dispatch, Decode, ReadReg, WriteReg, Pc, Plus;
    hide EncodeI, EncodeR, EncodeS, EncodeB, EncodeU;
    WordIsWide(OP_OP, rd, 0, rs1, rs2, 0, 0);
    ExecutesWord(o, m, insts, k);
    OpMeans(o, m, rd, 0, rs1, rs2, 0, Pc(insts, k + 1));
  }

  lemma LuiIsUpper(rd: bv5, imm20: bv32)
    ensures Lui(rd, imm20) == EncodeU(OP_LUI, rd, imm20 << 12)
  {
  }

  lemma LuiRuns(o: Oracle, m: Machine, insts: seq<Inst>, k: nat, rd: bv5, imm20: bv32)
    requires Ready(m, insts, k) && insts[k] == Wide(Lui(rd, imm20))
    ensures FetchExecute(o, m) == Ok(Wrote(m, rd, Shl(imm20, 12), insts, k + 1))
  {
    hide FetchExecute, Holds, Start, Dispatch, Decode, Lui, ReadReg, WriteReg, Pc;
    hide EncodeI, EncodeR, EncodeS, EncodeB, EncodeU;
    LuiIsUpper(rd, imm20);
    WordIsWide(OP_LUI, rd, 0, 0, 0, 0, imm20 << 12);
    ExecutesWord(o, m, insts, k);
    LuiMeans(o, m, rd, imm20 << 12, Pc(insts, k + 1));
  }

  lemma BnezRuns(o: Oracle, m: Machine, insts: seq<Inst>, k: nat, rs1: bv5, offset: bv32)
    requires Ready(m, insts, k) && insts[k] == Wide(Bnez(rs1, offset)) && Fits13(offset)
    ensures FetchExecute(o, m) ==
            Ok(m.(pc := if ReadReg(m, rs1) != 0 then Plus(m.pc, offset) else Pc(insts, k + 1)))
  {
    hide FetchExecute, Holds, Start, Dispatch, Decode, Fits13, WriteReg, Pc, Plus;
    hide EncodeI, EncodeR, EncodeS, EncodeB, EncodeU;
    WordIsWide(OP_BRANCH, 0, 1, rs1, 0, 0, offset);
    ExecutesWord(o, m, insts, k);
    BranchMeans(o, m, 1, rs1, 0, offset, Pc(insts, k + 1));
  }

  /** A load from ordinary memory. */
  lemma LwRuns(o: Oracle, m: Machine, insts: seq<Inst>, k: nat, rd: bv5, rs1: bv5, a: U32)
    requires Ready(m, insts, k) && insts[k] == Wide(Lw(rd, rs1, 0))
    requires ReadReg(m, rs1) == FromNat(a) && a + 4 <= MMIO_BASE
    ensures FetchExecute(o, m) == Ok(Wrote(m, rd, WordAt(m.st.bytes, a), insts, k + 1))
  {
    hide FetchExecute, Holds, Start, Dispatch, Decode, Fits12, ReadReg, WriteReg, Pc, Plus, Value;
    hide FromNat, Load32, WordAt;
    hide EncodeI, EncodeR, EncodeS, EncodeB, EncodeU;
    Immediates();
    WordIsWide(OP_LOAD, rd, 2, rs1, 0, 0, 0);
    ExecutesWord(o, m, insts, k);
    LoadWordMeans(o, m, rd, rs1, 0, Pc(insts, k + 1));
    PlusZero(FromNat(a));
    FromNatValue(a);
    LoadsWord(o, m.st, a);
    assert m.(st := m.st) == m;
  }

  lemma LoadsWord(o: Oracle, s: Store, a: U32)
    requires a + 4 <= MMIO_BASE
    ensures Load32(o, s, a) == Read(WordAt(s.bytes, a), s)
  {
    hide Word, At;
    assert Next(a) == a + 1 && Next(a + 1) == a + 2 && Next(a + 2) == a + 3;
  }

  /** Contents after writing a word. */
  function StoreWord(bytes: Flat, a: int, v: bv32): Flat {
    bytes[a := Byte(v, 0)][a + 1 := Byte(v, 1)][a + 2 := Byte(v, 2)][a + 3 := Byte(v, 3)]
  }

  lemma StoresWord(s: Store, a: U32, v: bv32)
    requires a + 4 <= MMIO_BASE
    ensures Store32(s, a, v) == s.(bytes := StoreWord(s.bytes, a, v))
  {
    hide Byte;
    assert Next(a) == a + 1 && Next(a + 1) == a + 2 && Next(a + 2) == a + 3;
  }

  lemma StoredWord(bytes: Flat, a: int, v: bv32)
    ensures WordAt(StoreWord(bytes, a, v), a) == v
    ensures forall x: int :: x < a || a + 4 <= x ==> At(StoreWord(bytes, a, v), x) == At(bytes, x)
  {
    hide Word, Byte;
    Coherence.BytesOfWord(v);
  }

  /** A store to ordinary memory. */
  lemma SwRuns(o: Oracle, m: Machine, insts: seq<Inst>, k: nat, rs1: bv5, rs2: bv5, a: U32)
    requires Ready(m, insts, k) && insts[k] == Wide(Sw(rs1, rs2, 0))
    requires ReadReg(m, rs1) == FromNat(a) && a + 4 <= MMIO_BASE
    ensures FetchExecute(o, m) ==
            Ok(m.(st := m.st.(bytes := StoreWord(m.st.bytes, a, ReadReg(m, rs2))), pc := Pc(insts, k + 1)))
  {
    hide FetchExecute, Holds, Start, Dispatch, Decode, Fits12, ReadReg, Pc, Plus, Value, FromNat;
    hide Store32, StoreWord;
    hide EncodeI, EncodeR, EncodeS, EncodeB, EncodeU;
    Immediates();
    WordIsWide(OP_STORE, 0, 2, rs1, rs2, 0, 0);
    ExecutesWord(o, m, insts, k);
    StoreWordMeans(o, m, rs1, rs2, 0, Pc(insts, k + 1));
    PlusZero(FromNat(a));
    FromNatValue(a);
    StoresWord(m.st, a, ReadReg(m, rs2));
  }

  /** `imm` fits the six bits of C.ADDI. */
  predicate Fits6(imm: bv32) { Extends(imm, 0xFFFF_FFE0) }

  lemma DecodeCAddi(rd: bv5, imm: bv32)
    requires Fits6(imm)
    ensures var h := CAddi(rd, imm);
            Op(h) == 1 && Funct3(h) == 0 && Reg(h, 7) == rd && Imm6Extended(h) == imm && IsCompressed(h)
  {
    CAddiFields(rd, imm);
    if imm & 0xFFFF_FFE0 == 0 {
      CAddiPositive(rd, imm);
    } else {
      CAddiNegative(rd, imm);
    }
  }

  lemma CAddiFields(rd: bv5, imm: bv32)
    ensures var h := CAddi(rd, imm); Op(h) == 1 && Funct3(h) == 0 && Reg(h, 7) == rd && IsCompressed(h)
  {
  }

  lemma CAddiPositive(rd: bv5, imm: bv32)
    requires imm & 0xFFFF_FFE0 == 0
    ensures Imm6Extended(CAddi(rd, imm)) == imm
  {
  }

  lemma CAddiNegative(rd: bv5, imm: bv32)
    requires imm & 0xFFFF_FFE0 == 0xFFFF_FFE0
    ensures Imm6Extended(CAddi(rd, imm)) == imm
  {
  }

  lemma CAddiRuns(o: Oracle, m: Machine, insts: seq<Inst>, k: nat, rd: bv5, imm: bv32)
    requires Ready(m, insts, k) && insts[k] == Narrow(CAddi(rd, imm)) && Fits6(imm) && rd != 0 && imm != 0
    ensures FetchExecute(o, m) == Ok(Wrote(m, rd, Plus(ReadReg(m, rd), imm), insts, k + 1))
  {
    hide FetchExecute, Holds, Start, Fits6, CAddi, ReadReg, WriteReg, Pc, Plus, Op, Funct3, Reg;
    hide Imm6Extended, IsCompressed;
    hide Quadrant0, Quadrant2, ExecLuiGroup, ExecArithmeticGroup, CjOffset, CbOffset, Creg;
    DecodeCAddi(rd, imm);
    ExecutesHalf(o, m, insts, k);
  }

  /** `exit`: with 93 in a7 an `ecall` halts with the code in a0. */
  lemma EcallExits(o: Oracle, m: Machine, insts: seq<Inst>, k: nat)
    requires Ready(m, insts, k) && insts[k] == Wide(ECALL) && !m.customSyscalls && ReadReg(m, A7) == 93
    ensures FetchExecute(o, m) == Ok(m.(halted := true, exitCode := ReadReg(m, A0), pc := Pc(insts, k + 1)))
  {
    hide FetchExecute, Holds, Start, Dispatch, Decode, ReadReg, WriteReg, Pc, SysWrite, SysRead, SysBrk;
    hide Record;
    ExecutesWord(o, m, insts, k);
    EcallMeans(o, m, Pc(insts, k + 1));
  }

  lemma Immediates()
    ensures Fits12(0xFFFF_FFFF) && Fits12(0x5A5) && Fits12(0x3C3) && Fits12(93) && Fits12(0) && Fits12(4)
    ensures Fits12(0x100) && Fits12(0x200) && Fits6(1) && Fits6(0xFFFF_FFFF)
  {
  }

  /** The low part of `li` is a 12-bit immediate, and the two parts add up to the value. */
  lemma LiParts(v: bv32)
    ensures Fits12(Low(v)) && Plus(Shl(High(v), 12), Low(v)) == v
  {
    LowFits(v);
    PartsAddUp(High(v) << 12, v);
  }

  lemma LowFits(v: bv32)
    ensures Fits12(Low(v))
  {
    LowFitsRaw(v + 0x800);
    assert v == (v + 0x800) - 0x800;
  }

  lemma LowFitsRaw(w: bv32)
    ensures (w & 0xFFF) - 0x800 == (w - 0x800) - ((w >> 12) << 12)
    ensures Fits12((w & 0xFFF) - 0x800)
  {
    assert w == ((w >> 12) << 12) | (w & 0xFFF);
  }

  lemma PartsAddUp(h: bv32, v: bv32)
    ensures h + (v - h) == v
  {
  }

  /** The `li` pair loads any 32-bit value into any register but x0, and touches nothing else. */
  lemma LiLoadsAnyValue(o: Oracle, m: Machine, insts: seq<Inst>, k: nat, rd: bv5, v: bv32)
    requires Ready(m, insts, k) && k + 1 < |insts| && Start(insts, k + 1) < 0x1000
    requires insts[k..k + 2] == Li(rd, v) && rd != 0
    ensures FetchExecute(o, m) == Ok(Wrote(m, rd, Shl(High(v), 12), insts, k + 1))
    ensures FetchExecute(o, FetchExecute(o, m).m) == Ok(Wrote(m, rd, v, insts, k + 2))
  {
    hide FetchExecute, Lui, Fits12, Addi, High, Low, Shl, Plus, Pc, Holds, Start;
    assert insts[k] == insts[k..k + 2][0] && insts[k + 1] == insts[k..k + 2][1];
    LiParts(v);
    LuiRuns(o, m, insts, k, rd, High(v));
    var m1 := Wrote(m, rd, Shl(High(v), 12), insts, k + 1);
    AddiRuns(o, m1, insts, k + 1, rd, rd, Low(v));
  }

  // ---- Runs of instructions ----

  /** No breakpoint stops the machine at `pc`. */
  predicate Free(d: Debug, pc: bv32) { !(d.enabled && pc in d.breakpoints) }

  /** No breakpoint on instructions `from` to `to - 1`. */
  ghost predicate FreeInsts(d: Debug, insts: seq<Inst>, from: nat, to: nat)
    requires to <= |insts|
  {
    forall k: nat :: from <= k < to ==> Free(d, Pc(insts, k))
  }

  lemma FewerFree(d: Debug, insts: seq<Inst>, from: nat, to: nat, all: nat)
    requires to <= all <= |insts| && FreeInsts(d, insts, 0, all)
    ensures FreeInsts(d, insts, from, to)
  {
    hide Pc, Free;
  }

  /** From `m`, `k` instructions that neither fault nor meet a breakpoint lead to `m'`; only the last may halt. */
  predicate Moves(o: Oracle, d: Debug, m: Machine, k: nat, m': Machine)
    decreases k
  {
    if k == 0 then m' == m
    else !m.halted && Free(d, m.pc) && FetchExecute(o, m).Ok? && Moves(o, d, FetchExecute(o, m).m, k - 1, m')
  }

  lemma NoMove(o: Oracle, d: Debug, m: Machine)
    ensures Moves(o, d, m, 0, m)
  {
    hide FetchExecute;
  }

  lemma NothingMoves(o: Oracle, d: Debug, m: Machine, m': Machine)
    requires Moves(o, d, m, 0, m')
    ensures m' == m
  {
  }

  lemma OneMove(o: Oracle, d: Debug, m: Machine, m': Machine)
    requires !m.halted && Free(d, m.pc) && FetchExecute(o, m) == Ok(m')
    ensures Moves(o, d, m, 1, m')
  {
    hide FetchExecute;
    assert Moves(o, d, m', 0, m');
  }

  lemma {:induction false} MovesCompose(o: Oracle, d: Debug, a: Machine, i: nat, b: Machine, j: nat, c: Machine)
    requires Moves(o, d, a, i, b) && Moves(o, d, b, j, c)
    ensures Moves(o, d, a, i + j, c)
    decreases i
  {
    hide FetchExecute, Free;
    if i == 0 {
    } else {
      MovesCompose(o, d, FetchExecute(o, a).m, i - 1, b, j, c);
    }
  }

  /** Such a run is what repeated stepping does. */
  lemma {:induction false} MovesAreSteps(o: Oracle, d: Debug, c: Core, k: nat, m': Machine)
    requires Moves(o, d, c.m, k, m') && (k == 0 ==> !m'.halted)
    ensures var s := Stepping(o, d, c, k);
            s.status == (if m'.halted then Halted else Running) && s.steps == k && s.c.m == m'
    decreases k
  {
    hide FetchExecute;
    if k == 0 {
    } else {
      var m1, s := FetchExecute(o, c.m).m, StepInstruction(o, d, c);
      assert s.c.m == m1;
      if m1.halted {
        HaltEndsMoves(o, d, m1, k - 1, m');
      } else {
        MovesAreSteps(o, d, s.c, k - 1, m');
      }
    }
  }

  lemma HaltEndsMoves(o: Oracle, d: Debug, m: Machine, k: nat, m': Machine)
    requires Moves(o, d, m, k, m') && m.halted
    ensures k == 0 && m' == m
  {
    hide FetchExecute;
  }

  lemma {:induction false} SteppingBounded(o: Oracle, d: Debug, c: Core, n: nat)
    ensures Stepping(o, d, c, n).steps <= n
    ensures Stepping(o, d, c, n).status == Running ==> Stepping(o, d, c, n).steps == n
    decreases n
  {
    hide StepInstruction;
    if n == 0 {
    } else {
      SteppingBounded(o, d, StepInstruction(o, d, c).c, n - 1);
    }
  }

  /** A run of `total` instructions that ends in a halt: a slice completes it, or spends a smaller budget. */
  lemma HaltingRun(o: Oracle, d: Debug, c: Core, total: nat, m': Machine, budget: nat)
    requires Quiet(o) && !c.m.halted && m'.halted && Moves(o, d, c.m, total, m')
    ensures var s := RunSlice(o, d, c, budget);
            if total <= budget then s.status == Halted && s.steps == total && s.c.m == m'
            else s.status == Running && s.steps == budget
  {
    hide Stepping, RunSlice, Moves;
    if total == 0 {
      NothingMoves(o, d, c.m, m');
      assert false;
    }
    MovesAreSteps(o, d, c, total, m');
    if budget == 0 {
      EmptySliceForgetsBreakpoint(o, d, c);
      return;
    }
    SliceIsStepping(o, d, c, budget);
    if total <= budget {
      SteppingSplits(o, d, c, total, budget - total);
    } else {
      SteppingSplits(o, d, c, budget, total - budget);
      SteppingBounded(o, d, c, budget);
    }
  }

  /** A run that goes on: a slice within it spends its budget. */
  lemma EndlessRun(o: Oracle, d: Debug, c: Core, total: nat, m': Machine, budget: nat)
    requires Quiet(o) && !c.m.halted && !m'.halted && Moves(o, d, c.m, total, m') && budget <= total
    ensures var s := RunSlice(o, d, c, budget); s.status == Running && s.steps == budget
  {
    hide Stepping, RunSlice, Moves;
    MovesAreSteps(o, d, c, total, m');
    if budget == 0 {
      EmptySliceForgetsBreakpoint(o, d, c);
      return;
    }
    SliceIsStepping(o, d, c, budget);
    SteppingSplits(o, d, c, budget, total - budget);
    SteppingBounded(o, d, c, budget);
  }

  lemma StopsAtBreakpoint(o: Oracle, d: Debug, c: Core, n: nat)
    requires n > 0 && !Free(d, c.m.pc) && c.resume == None
    ensures Stepping(o, d, c, n) == Slice(c.(resume := Some(c.m.pc)), Breakpoint, 0)
  {
    hide Try;
  }

  /** A run up to a breakpoint: a slice with budget to spare stops there. */
  lemma RunToBreakpoint(o: Oracle, d: Debug, c: Core, total: nat, m': Machine, budget: nat)
    requires Quiet(o) && !c.m.halted && !m'.halted && Moves(o, d, c.m, total, m') && 0 < total < budget
    requires !Free(d, m'.pc)
    ensures var s := RunSlice(o, d, c, budget);
            s.status == Breakpoint && s.steps == total && s.c.m == m' && s.c.resume == Some(m'.pc)
  {
    hide Moves, Stepping, RunSlice, Free;
    MovesAreSteps(o, d, c, total, m');
    SliceIsStepping(o, d, c, budget);
    SteppingSplits(o, d, c, total, budget - total);
    SteppingRunsOn(o, d, c, total);
    StopsAtBreakpoint(o, d, Stepping(o, d, c, total).c, budget - total);
  }

  // ---- Running a program ----

  /** A machine about to execute instruction `k` of a program that may exit. */
  ghost predicate Executing(m: Machine, insts: seq<Inst>, k: nat) {
    Ready(m, insts, k) && !m.halted && !m.customSyscalls
  }

  /** Another place in the same program, with other registers. */
  lemma StaysExecuting(m: Machine, insts: seq<Inst>, j: nat, m': Machine, k: nat)
    requires Executing(m, insts, j) && k < |insts| && Start(insts, k) < 0x1000
    requires m' == m.(regs := m'.regs, pc := Pc(insts, k))
    ensures Executing(m', insts, k)
  {
    hide Holds, Pc, Start;
  }

  /** Two instructions put a value into a register. */
  lemma RunsLi(o: Oracle, d: Debug, m: Machine, insts: seq<Inst>, k: nat, rd: bv5, v: bv32)
    requires Executing(m, insts, k) && k + 1 < |insts| && Start(insts, k + 1) < 0x1000
    requires insts[k..k + 2] == Li(rd, v) && rd != 0 && FreeInsts(d, insts, k, k + 2)
    ensures Moves(o, d, m, 2, Wrote(m, rd, v, insts, k + 2))
  {
    hide FetchExecute, Moves, Free, Holds, Pc, Li, High, Shl, Start;
    LiLoadsAnyValue(o, m, insts, k, rd, v);
    var m1 := Wrote(m, rd, Shl(High(v), 12), insts, k + 1);
    OneMove(o, d, m, m1);
    OneMove(o, d, m1, Wrote(m, rd, v, insts, k + 2));
    MovesCompose(o, d, m, 1, m1, 1, Wrote(m, rd, v, insts, k + 2));
  }

  /** The machine after the exit sequence. */
  function Exited(m: Machine, insts: seq<Inst>, k: nat): Machine
    requires k <= |insts|
  {
    m.(regs := m.regs[17 := 93][10 := 0], pc := Pc(insts, k), halted := true, exitCode := 0)
  }

  /** Three instructions exit with code zero. */
  lemma RunsExit(o: Oracle, d: Debug, m: Machine, insts: seq<Inst>, k: nat)
    requires k + 3 <= |insts| && Start(insts, k + 2) < 0x1000 && Start(insts, k + 1) < 0x1000
    requires Executing(m, insts, k) && insts[k..k + 3] == Exit() && FreeInsts(d, insts, k, k + 3)
    ensures Moves(o, d, m, 3, Exited(m, insts, k + 3))
  {
    hide FetchExecute, Moves, Free, Holds, Pc, Addi, Plus, Start;
    assert insts[k] == Exit()[0] && insts[k + 1] == Exit()[1] && insts[k + 2] == Exit()[2];
    Immediates();
    ZeroPlus();
    AddiRuns(o, m, insts, k, 17, 0, 93);
    var m1 := m.(regs := m.regs[17 := 93], pc := Pc(insts, k + 1));
    OneMove(o, d, m, m1);
    AddiRuns(o, m1, insts, k + 1, 10, 0, 0);
    var m2 := m1.(regs := m1.regs[10 := 0], pc := Pc(insts, k + 2));
    OneMove(o, d, m1, m2);
    MovesCompose(o, d, m, 1, m1, 1, m2);
    EcallExits(o, m2, insts, k + 2);
    OneMove(o, d, m2, Exited(m, insts, k + 3));
    MovesCompose(o, d, m, 2, m2, 1, Exited(m, insts, k + 3));
  }

  lemma ZeroPlus()
    ensures Plus(0, 93) == 93 && Plus(0, 0) == 0
  {
  }

  // ---- Loop counters ----

  /** `value as u32` of an `i32`. */
  function Unsigned(n: I32): bv32 { Wrapped(n) }

  /** Passes a count-down loop makes for an `i32` count: the count is used as a `u32`, and zero wraps around. */
  function Passes(n: I32): (p: nat)
    ensures 0 < p <= WORD
  {
    if n >= 1 then n else n + WORD
  }

  lemma CounterOf(n: I32)
    ensures Unsigned(n) == FromNat(Passes(n))
  {
    hide FromNat;
    if n == 0 {
      WholeTurn();
      FromNatZero();
    }
  }

  lemma CountDown(p: nat)
    requires 0 < p <= WORD
    ensures Plus(FromNat(p), 0xFFFF_FFFF) == FromNat(p - 1)
    ensures FromNat(p - 1) == 0 <==> p == 1
  {
    hide FromNat, Plus, Value;
    FromNatPlus(p - 1, 1);
    LiteralOne();
    BackAgain(FromNat(p - 1));
    FromNatValue(p - 1);
    FromNatValue(0);
    FromNatZero();
  }

  lemma LiteralOne()
    ensures FromNat(1) == 1
  {
    LiteralWord(1, 1);
  }

  lemma BackAgain(x: bv32)
    ensures Plus(Plus(x, 1), 0xFFFF_FFFF) == x
  {
  }
}
