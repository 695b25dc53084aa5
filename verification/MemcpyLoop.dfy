/**
 * The benchmark loop that copies words: its declared instruction count, and what
 * it leaves in memory. The destination starts one mebibyte after the source, so
 * a longer copy reads what it has written.
 */
module MemcpyLoop {
  import opened Bits
  import opened HostImports
  import opened FlatMemory
  import opened PagedMemory
  import opened Machine
  import opened Formats
  import opened Steps
  import opened RunLoop
  import opened Cpu
  import opened Guest

  const SRC_BASE: nat := 0x10_0000
  const DST_BASE: nat := 0x20_0000

  /** Words from the source base to the destination base. */
  const GAP: nat := 0x4_0000

  /** The instructions of `memcpy_loop`. */
  function Code(v: bv32): (r: seq<Inst>)
    ensures |r| == 19
  {
    Li(5, v) + Cursors() + Body() + Exit()
  }

  /** The loop; the branch goes back from byte 60 to byte 32. */
  function Body(): (r: seq<Inst>)
    ensures |r| == 8 && forall i :: 0 <= i < |r| ==> r[i].Wide?
  {
    [Wide(Add(14, 12, 10)),
     Wide(Lw(15, 14, 0)),
     Wide(Add(16, 13, 11)),
     Wide(Sw(16, 15, 0)),
     Wide(Addi(10, 10, 4)),
     Wide(Addi(11, 11, 4)),
     Wide(Addi(5, 5, 0xFFFF_FFFF)),
     Wide(Bnez(5, Wrapped(-28)))]
  }

  /** Cursors start at zero, and the bases are built with shifts. */
  function Cursors(): (r: seq<Inst>)
    ensures |r| == 6 && forall i :: 0 <= i < |r| ==> r[i].Wide?
  {
    [Wide(Addi(10, 0, 0)),
     Wide(Addi(11, 0, 0)),
     Wide(Addi(12, 0, 0x100)),
     Wide(Slli(12, 12, 12)),
     Wide(Addi(13, 0, 0x200)),
     Wide(Slli(13, 13, 12))]
  }

  lemma AllWide(v: bv32, k: nat)
    requires k <= 19
    ensures forall i :: 0 <= i < |Code(v)| ==> Code(v)[i].Wide?
    ensures Start(Code(v), k) == 4 * k
  {
    hide Li, Cursors, Body, Exit, Start;
    WideStarts(Code(v), k);
  }

  lemma BackOffset()
    ensures Wrapped(-28) == 0xFFFF_FFE4 && Fits13(0xFFFF_FFE4)
  {
    hide FromNat;
    LiteralWord(0xFFFF_FFE4, 0xFFFF_FFE4);
  }

  lemma Bases()
    ensures Shl(Plus(0, 0x100), 12) == FromNat(SRC_BASE) && Shl(Plus(0, 0x200), 12) == FromNat(DST_BASE)
    ensures Plus(0, 0) == FromNat(0)
  {
    LiteralWord(SRC_BASE, 0x10_0000);
    LiteralWord(DST_BASE, 0x20_0000);
    FromNatZero();
  }

  // ---- Setup ----

  /** The machine at the start of the loop. */
  function Prepared(m: Machine, v: bv32): Machine {
    m.(regs := m.regs[5 := v][10 := FromNat(0)][11 := FromNat(0)][12 := FromNat(SRC_BASE)][13 := FromNat(DST_BASE)],
       pc := Pc(Code(v), 8))
  }

  function Zeroed(m: Machine): Machine { m.(regs := m.regs[10 := FromNat(0)][11 := FromNat(0)]) }

  lemma RunsZeroes(o: Oracle, d: Debug, m: Machine, v: bv32)
    requires Executing(m, Code(v), 2) && FreeInsts(d, Code(v), 0, 19)
    ensures Moves(o, d, m, 2, Zeroed(m).(pc := Pc(Code(v), 4)))
  {
    hide FetchExecute, Moves, Free, Holds, Pc, Start, Lui, Addi, Slli, Add, Lw, Sw, Bnez, High, Low, Wrapped;
    hide Plus, FromNat, Shl;
    var code := Code(v);
    Immediates();
    Bases();
    AllWide(v, 3);
    AddiRuns(o, m, code, 2, 10, 0, 0);
    var m1 := m.(regs := m.regs[10 := FromNat(0)], pc := Pc(code, 3));
    OneMove(o, d, m, m1);
    AddiRuns(o, m1, code, 3, 11, 0, 0);
    var m2 := m1.(regs := m1.regs[11 := FromNat(0)], pc := Pc(code, 4));
    OneMove(o, d, m1, m2);
    MovesCompose(o, d, m, 1, m1, 1, m2);
  }

  /** A base address built by an `addi` and a shift, at instruction `k`. */
  lemma RunsBase(o: Oracle, d: Debug, m: Machine, v: bv32, k: nat, rd: bv5, imm: bv32, base: bv32)
    requires k + 2 < 19 && Executing(m, Code(v), k) && FreeInsts(d, Code(v), 0, 19) && rd != 0 && Fits12(imm)
    requires Code(v)[k] == Wide(Addi(rd, 0, imm)) && Code(v)[k + 1] == Wide(Slli(rd, rd, 12))
    requires Shl(Plus(0, imm), 12) == base
    ensures Moves(o, d, m, 2, WriteReg(m, rd, base).(pc := Pc(Code(v), k + 2)))
  {
    hide FetchExecute, Moves, Free, Holds, Pc, Start, Code, Addi, Slli, Plus, Shl, Fits12;
    var code := Code(v);
    AllWide(v, k + 1);
    AddiRuns(o, m, code, k, rd, 0, imm);
    var m1 := WriteReg(m, rd, Plus(0, imm)).(pc := Pc(code, k + 1));
    OneMove(o, d, m, m1);
    SlliRuns(o, m1, code, k + 1, rd, rd, 12);
    var m2 := WriteReg(m, rd, base).(pc := Pc(code, k + 2));
    OneMove(o, d, m1, m2);
    MovesCompose(o, d, m, 1, m1, 1, m2);
  }

  lemma BaseCode(v: bv32)
    ensures Code(v)[4] == Wide(Addi(12, 0, 0x100)) && Code(v)[5] == Wide(Slli(12, 12, 12))
    ensures Code(v)[6] == Wide(Addi(13, 0, 0x200)) && Code(v)[7] == Wide(Slli(13, 13, 12))
    ensures Code(v)[0..2] == Li(5, v) && Code(v)[16..19] == Exit()
  {
    hide Lui, Addi, Slli, Add, Lw, Sw, Bnez, High, Low, Wrapped;
  }

  /** Eight instructions set up the counter, the cursors and the bases. */
  lemma RunsSetup(o: Oracle, d: Debug, m: Machine, v: bv32)
    requires Executing(m, Code(v), 0) && FreeInsts(d, Code(v), 0, 19)
    ensures Moves(o, d, m, 8, Prepared(m, v))
  {
    hide Moves, Ready, FreeInsts, Pc, Start, Plus, Shl, FromNat, Code, Fits12, Addi, Slli;
    AllWide(v, 1);
    AllWide(v, 2);
    AllWide(v, 4);
    AllWide(v, 6);
    BaseCode(v);
    Bases();
    Immediates();
    FewerFree(d, Code(v), 0, 2, 19);
    RunsLi(o, d, m, Code(v), 0, 5, v);
    var m1 := m.(regs := m.regs[5 := v], pc := Pc(Code(v), 2));
    StaysExecuting(m, Code(v), 0, m1, 2);
    RunsZeroes(o, d, m1, v);
    var m2 := m1.(regs := m1.regs[10 := FromNat(0)][11 := FromNat(0)], pc := Pc(Code(v), 4));
    MovesCompose(o, d, m, 2, m1, 2, m2);
    StaysExecuting(m, Code(v), 0, m2, 4);
    RunsBase(o, d, m2, v, 4, 12, 0x100, FromNat(SRC_BASE));
    var m3 := m2.(regs := m2.regs[12 := FromNat(SRC_BASE)], pc := Pc(Code(v), 6));
    MovesCompose(o, d, m, 4, m2, 2, m3);
    StaysExecuting(m, Code(v), 0, m3, 6);
    RunsBase(o, d, m3, v, 6, 13, 0x200, FromNat(DST_BASE));
    MovesCompose(o, d, m, 6, m3, 2, Prepared(m, v));
  }

  // ---- One pass ----

  /** Contents after copying word `p`. */
  function CopyWord(bytes: Flat, p: nat): Flat {
    StoreWord(bytes, DST_BASE + 4 * p, WordAt(bytes, SRC_BASE + 4 * p))
  }

  /** The cursors stand at word `p` and the bases are in place. */
  predicate AtWord(m: Machine, p: nat) {
    && m.regs[10] == FromNat(4 * p) && m.regs[11] == FromNat(4 * p)
    && m.regs[12] == FromNat(SRC_BASE) && m.regs[13] == FromNat(DST_BASE)
  }

  /** Both words lie below the device window. */
  predicate InRange(p: nat) { DST_BASE + 4 * p + 4 <= MMIO_BASE }

  /** The machine after one pass, wherever its pc is. */
  function Pass(m: Machine, p: nat): Machine {
    m.(regs := m.regs[14 := FromNat(SRC_BASE + 4 * p)][15 := WordAt(m.st.bytes, SRC_BASE + 4 * p)]
                     [16 := FromNat(DST_BASE + 4 * p)][10 := FromNat(4 * (p + 1))][11 := FromNat(4 * (p + 1))]
                     [5 := Plus(m.regs[5], 0xFFFF_FFFF)],
       st := m.st.(bytes := CopyWord(m.st.bytes, p)))
  }

  /** The machine once the source word is in x15. */
  function Loading(m: Machine, p: nat): Machine {
    var a := SRC_BASE + 4 * p;
    m.(regs := m.regs[14 := FromNat(a)][15 := WordAt(m.st.bytes, a)])
  }

  /** The machine once x15 is in the destination. */
  function Storing(m: Machine, p: nat): Machine {
    var b := DST_BASE + 4 * p;
    m.(regs := m.regs[16 := FromNat(b)], st := m.st.(bytes := StoreWord(m.st.bytes, b, m.regs[15])))
  }

  function Advanced(m: Machine, p: nat): Machine {
    m.(regs := m.regs[10 := FromNat(4 * (p + 1))][11 := FromNat(4 * (p + 1))])
  }

  function Counted(m: Machine): Machine { m.(regs := m.regs[5 := Plus(m.regs[5], 0xFFFF_FFFF)]) }

  /** Those four are the pass. */
  lemma PassInSteps(m: Machine, p: nat)
    ensures Counted(Advanced(Copying(m, p), p)) == Pass(m, p)
    ensures Copying(m, p) == m.(regs := Copying(m, p).regs, st := m.st.(bytes := CopyWord(m.st.bytes, p)))
    ensures var m3 := Advanced(Copying(m, p), p);
            m3 == m.(regs := m3.regs, st := m.st.(bytes := CopyWord(m.st.bytes, p)))
  {
    hide FromNat, Plus, WordAt, StoreWord;
  }

  lemma LoadsWordP(o: Oracle, d: Debug, m: Machine, v: bv32, p: nat)
    requires Executing(m, Code(v), 8) && FreeInsts(d, Code(v), 0, 19) && AtWord(m, p) && InRange(p)
    ensures Moves(o, d, m, 2, Loading(m, p).(pc := Pc(Code(v), 10)))
  {
    hide FetchExecute, Moves, Free, Holds, Pc, Start, Lui, Addi, Slli, Add, Lw, Sw, Bnez, High, Low, Wrapped;
    hide Plus, FromNat, WordAt;
    var code, a := Code(v), SRC_BASE + 4 * p;
    AllWide(v, 9);
    FromNatPlus(SRC_BASE, 4 * p);
    AddRuns(o, m, code, 8, 14, 12, 10);
    var m1 := m.(regs := m.regs[14 := FromNat(a)], pc := Pc(code, 9));
    OneMove(o, d, m, m1);
    LwRuns(o, m1, code, 9, 15, 14, a);
    var m2 := m1.(regs := m1.regs[15 := WordAt(m.st.bytes, a)], pc := Pc(code, 10));
    OneMove(o, d, m1, m2);
    MovesCompose(o, d, m, 1, m1, 1, m2);
  }

  lemma StoresWordP(o: Oracle, d: Debug, m: Machine, v: bv32, p: nat)
    requires Executing(m, Code(v), 10) && FreeInsts(d, Code(v), 0, 19) && AtWord(m, p) && InRange(p)
    ensures Moves(o, d, m, 2, Storing(m, p).(pc := Pc(Code(v), 12)))
  {
    hide FetchExecute, Moves, Free, Holds, Pc, Start, Lui, Addi, Slli, Add, Lw, Sw, Bnez, High, Low, Wrapped;
    hide Plus, FromNat, StoreWord;
    var code, b := Code(v), DST_BASE + 4 * p;
    AllWide(v, 11);
    FromNatPlus(DST_BASE, 4 * p);
    AddRuns(o, m, code, 10, 16, 13, 11);
    var m1 := m.(regs := m.regs[16 := FromNat(b)], pc := Pc(code, 11));
    OneMove(o, d, m, m1);
    SwRuns(o, m1, code, 11, 16, 15, b);
    var m2 := m1.(st := m.st.(bytes := StoreWord(m.st.bytes, b, m.regs[15])), pc := Pc(code, 12));
    OneMove(o, d, m1, m2);
    MovesCompose(o, d, m, 1, m1, 1, m2);
  }

  lemma MovesCursors(o: Oracle, d: Debug, m: Machine, v: bv32, p: nat)
    requires Executing(m, Code(v), 12) && FreeInsts(d, Code(v), 0, 19) && AtWord(m, p)
    ensures Moves(o, d, m, 2, Advanced(m, p).(pc := Pc(Code(v), 14)))
  {
    hide FetchExecute, Moves, Free, Holds, Pc, Start, Lui, Addi, Slli, Add, Lw, Sw, Bnez, High, Low, Wrapped;
    hide Plus, FromNat;
    var code, x := Code(v), FromNat(4 * (p + 1));
    Immediates();
    AllWide(v, 13);
    FromNatPlus(4 * p, 4);
    LiteralWord(4, 4);
    assert 4 * (p + 1) == 4 * p + 4;
    AddiRuns(o, m, code, 12, 10, 10, 4);
    var m1 := m.(regs := m.regs[10 := x], pc := Pc(code, 13));
    OneMove(o, d, m, m1);
    AddiRuns(o, m1, code, 13, 11, 11, 4);
    var m2 := m1.(regs := m1.regs[11 := x], pc := Pc(code, 14));
    OneMove(o, d, m1, m2);
    MovesCompose(o, d, m, 1, m1, 1, m2);
  }

  lemma CountsDown(o: Oracle, d: Debug, m: Machine, v: bv32)
    requires Executing(m, Code(v), 14) && FreeInsts(d, Code(v), 0, 19)
    ensures Moves(o, d, m, 2, Counted(m).(pc := Pc(Code(v), if Counted(m).regs[5] != 0 then 8 else 16)))
  {
    hide FetchExecute, Moves, Free, Holds, Pc, Start, Lui, Addi, Slli, Add, Lw, Sw, Bnez, High, Low;
    hide Wrapped, Plus;
    var code, x5 := Code(v), Plus(m.regs[5], 0xFFFF_FFFF);
    Immediates();
    BackOffset();
    AllWide(v, 8);
    AllWide(v, 15);
    AddiRuns(o, m, code, 14, 5, 5, 0xFFFF_FFFF);
    var m1 := m.(regs := m.regs[5 := x5], pc := Pc(code, 15));
    OneMove(o, d, m, m1);
    BnezRuns(o, m1, code, 15, 5, Wrapped(-28));
    BranchBack(code, 15, 8, 28);
    var m2 := m1.(pc := Pc(code, if x5 != 0 then 8 else 16));
    OneMove(o, d, m1, m2);
    MovesCompose(o, d, m, 1, m1, 1, m2);
  }

  /** The program lies below the destination, so no pass overwrites it. */
  lemma StillHolds(bytes: Flat, bytes': Flat, v: bv32)
    requires Holds(bytes, Code(v)) && forall x: int :: x < DST_BASE ==> At(bytes', x) == At(bytes, x)
    ensures Holds(bytes', Code(v))
  {
    hide Code, Start, Word, Half, At;
    var code := Code(v);
    forall k | 0 <= k < |code|
      ensures InstAt(bytes', PROGRAM_BASE + Start(code, k), code[k])
    {
      AllWide(v, k);
      assert InstAt(bytes, PROGRAM_BASE + Start(code, k), code[k]);
    }
  }

  lemma CopyWordFacts(bytes: Flat, p: nat)
    ensures WordAt(CopyWord(bytes, p), DST_BASE + 4 * p) == WordAt(bytes, SRC_BASE + 4 * p)
    ensures forall x: int :: x < DST_BASE + 4 * p || DST_BASE + 4 * p + 4 <= x ==>
            At(CopyWord(bytes, p), x) == At(bytes, x)
  {
    hide WordAt, StoreWord, At;
    StoredWord(bytes, DST_BASE + 4 * p, WordAt(bytes, SRC_BASE + 4 * p));
  }

  lemma CopyKeepsExecuting(m: Machine, v: bv32, p: nat, m': Machine, j: nat, k: nat)
    requires j < 19 && k < 19 && Executing(m, Code(v), j)
    requires m' == m.(regs := m'.regs, st := m.st.(bytes := CopyWord(m.st.bytes, p)), pc := Pc(Code(v), k))
    ensures Executing(m', Code(v), k)
  {
    hide Holds, Pc, Start, Code, CopyWord, At;
    AllWide(v, k);
    CopyWordFacts(m.st.bytes, p);
    StillHolds(m.st.bytes, m'.st.bytes, v);
  }

  /** The machine once word `p` is copied. */
  function Copying(m: Machine, p: nat): Machine { Storing(Loading(m, p), p) }

  lemma CopiesOne(o: Oracle, d: Debug, m: Machine, v: bv32, p: nat)
    requires Executing(m, Code(v), 8) && FreeInsts(d, Code(v), 0, 19) && AtWord(m, p) && InRange(p)
    ensures Moves(o, d, m, 4, Copying(m, p).(pc := Pc(Code(v), 12)))
  {
    hide Moves, Executing, FreeInsts, Pc, Start, FromNat, Code, InRange, Loading, Storing, AtWord;
    var pc1, pc2 := Pc(Code(v), 10), Pc(Code(v), 12);
    StepsIgnorePc(m, p, pc1, pc2, pc2);
    LoadsWordP(o, d, m, v, p);
    LoadingKeeps(m, v, p);
    StoresWordP(o, d, Loading(m, p).(pc := pc1), v, p);
    MovesCompose(o, d, m, 2, Loading(m, p).(pc := pc1), 2, Copying(m, p).(pc := pc2));
  }

  /** One pass: eight instructions copy one word and move both cursors. */
  lemma OnePass(o: Oracle, d: Debug, m: Machine, v: bv32, p: nat)
    requires Executing(m, Code(v), 8) && FreeInsts(d, Code(v), 0, 19) && AtWord(m, p) && InRange(p)
    ensures Moves(o, d, m, 8, Pass(m, p).(pc := Pc(Code(v), if Pass(m, p).regs[5] != 0 then 8 else 16)))
  {
    hide Moves, Executing, FreeInsts, Pc, Start, FromNat, Code, InRange, Pass, Copying, Advanced, Counted, AtWord;
    PassInSteps(m, p);
    var m2, m3, pc2, pc3 := Copying(m, p), Advanced(Copying(m, p), p), Pc(Code(v), 12), Pc(Code(v), 14);
    StepsIgnorePc(m, p, pc2, pc2, pc3);
    CopiesOne(o, d, m, v, p);
    CopyKeepsExecuting(m, v, p, m2.(pc := pc2), 8, 12);
    MovesCursors(o, d, m2.(pc := pc2), v, p);
    MovesCompose(o, d, m, 4, m2.(pc := pc2), 2, m3.(pc := pc3));
    CopyKeepsExecuting(m, v, p, m3.(pc := pc3), 8, 14);
    CountsDown(o, d, m3.(pc := pc3), v);
    MovesCompose(o, d, m, 6, m3.(pc := pc3),
                 2, Pass(m, p).(pc := Pc(Code(v), if Pass(m, p).regs[5] != 0 then 8 else 16)));
  }

  /** None of the steps looks at the pc or moves the cursors before their turn. */
  lemma StepsIgnorePc(m: Machine, p: nat, pc1: bv32, pc2: bv32, pc3: bv32)
    requires AtWord(m, p)
    ensures var m1, m2 := Loading(m, p), Copying(m, p);
            var m3 := Advanced(m2, p);
            && AtWord(m1.(pc := pc1), p) && AtWord(m2.(pc := pc2), p)
            && Storing(m1.(pc := pc1), p) == m2.(pc := pc1)
            && Advanced(m2.(pc := pc2), p) == m3.(pc := pc2)
            && Counted(m3.(pc := pc3)) == Counted(m3).(pc := pc3)
  {
    hide FromNat, Plus, WordAt, StoreWord;
  }

  lemma LoadingKeeps(m: Machine, v: bv32, p: nat)
    requires Executing(m, Code(v), 8)
    ensures Executing(Loading(m, p).(pc := Pc(Code(v), 10)), Code(v), 10)
  {
    hide Executing, Pc, Start, FromNat, Code, WordAt;
    AllWide(v, 10);
    StaysExecuting(m, Code(v), 8, Loading(m, p).(pc := Pc(Code(v), 10)), 10);
  }

  // ---- All passes ----

  /** Contents after copying words `0` to `p - 1`. */
  function Copied(bytes: Flat, p: nat): Flat
    decreases p
  {
    if p == 0 then bytes else CopyWord(Copied(bytes, p - 1), p - 1)
  }

  /** The machine after `p` passes, wherever its pc is. */
  function Passed(m: Machine, p: nat): Machine
    decreases p
  {
    if p == 0 then m else Pass(Passed(m, p - 1), p - 1)
  }

  /** What one pass does to the cursors and the counter. */
  lemma PassFacts(m: Machine, p: nat, pc: bv32)
    requires AtWord(m, p)
    ensures var m' := Pass(m, p);
            && m' == m.(regs := m'.regs, st := m.st.(bytes := CopyWord(m.st.bytes, p)))
            && AtWord(m', p + 1) && m'.regs[5] == Plus(m.regs[5], 0xFFFF_FFFF)
            && Pass(m.(pc := pc), p) == m'.(pc := pc)
  {
    hide Plus, FromNat, CopyWord, WordAt;
  }

  lemma {:induction false} PassedFacts(m: Machine, p: nat, count: nat)
    requires AtWord(m, 0) && m.regs[5] == FromNat(count) && p <= count <= WORD
    ensures var m' := Passed(m, p);
            && m' == m.(regs := m'.regs, st := m.st.(bytes := Copied(m.st.bytes, p)))
            && AtWord(m', p) && m'.regs[5] == FromNat(count - p)
    decreases p
  {
    hide Plus, FromNat, CopyWord, Pass, AtWord;
    if p == 0 {
    } else {
      PassedFacts(m, p - 1, count);
      PassFacts(Passed(m, p - 1), p - 1, m.pc);
      CountDown(count - (p - 1));
    }
  }

  /** The loop: after `p` passes of `count` the machine is at the start of the body, or past it if that was the last. */
  lemma {:induction false} AllPasses(o: Oracle, d: Debug, m: Machine, v: bv32, p: nat, count: nat)
    requires Executing(m, Code(v), 8) && FreeInsts(d, Code(v), 0, 19) && AtWord(m, 0)
    requires m.regs[5] == FromNat(count) && 0 < count <= WORD && p <= count && (p > 0 ==> InRange(p - 1))
    ensures Moves(o, d, m, 8 * p, Passed(m, p).(pc := Pc(Code(v), if p == count then 16 else 8)))
    decreases p
  {
    hide Moves, Ready, FreeInsts, Pc, Start, FromNat, Code, AtWord, Pass;
    if p == 0 {
      assert m.(pc := Pc(Code(v), 8)) == m by { ReadyPc(m, v); }
      NoMove(o, d, m);
    } else {
      AllPasses(o, d, m, v, p - 1, count);
      NextPass(o, d, m, v, p - 1, count);
      MovesCompose(o, d, m, 8 * (p - 1), Passed(m, p - 1).(pc := Pc(Code(v), 8)),
                   8, Passed(m, p).(pc := Pc(Code(v), if p == count then 16 else 8)));
    }
  }

  lemma NextPass(o: Oracle, d: Debug, m: Machine, v: bv32, p: nat, count: nat)
    requires Executing(m, Code(v), 8) && FreeInsts(d, Code(v), 0, 19) && AtWord(m, 0)
    requires m.regs[5] == FromNat(count) && p < count <= WORD && InRange(p)
    ensures Moves(o, d, Passed(m, p).(pc := Pc(Code(v), 8)), 8,
                  Passed(m, p + 1).(pc := Pc(Code(v), if p + 1 == count then 16 else 8)))
  {
    hide Moves, Executing, FreeInsts, Pc, Start, Plus, FromNat, Code, AtWord, Pass, CopyWord, Copied;
    assert Passed(m, p + 1) == Pass(Passed(m, p), p);
    hide Passed;
    PassedFacts(m, p, count);
    CountDown(count - p);
    var m1 := Passed(m, p).(pc := Pc(Code(v), 8));
    PassExecuting(m, v, p, count);
    AtWordAnyPc(Passed(m, p), Pc(Code(v), 8), p);
    PassFacts(Passed(m, p), p, Pc(Code(v), 8));
    OnePass(o, d, m1, v, p);
  }

  lemma ReadyPc(m: Machine, v: bv32)
    requires Ready(m, Code(v), 8)
    ensures m.pc == Pc(Code(v), 8)
  {
    hide Code, Holds, Start, Pc;
  }

  lemma AtWordAnyPc(m: Machine, pc: bv32, p: nat)
    requires AtWord(m, p)
    ensures AtWord(m.(pc := pc), p)
  {
    hide FromNat;
  }

  lemma {:induction false} PassExecuting(m: Machine, v: bv32, p: nat, count: nat)
    requires Executing(m, Code(v), 8) && AtWord(m, 0) && m.regs[5] == FromNat(count) && p <= count <= WORD
    ensures Executing(Passed(m, p).(pc := Pc(Code(v), 8)), Code(v), 8)
    ensures Executing(Passed(m, p).(pc := Pc(Code(v), 16)), Code(v), 16)
  {
    hide Holds, Pc, Start, Code, Passed, Copied, AtWord, FromNat, At;
    PassedFacts(m, p, count);
    AllWide(v, 8);
    AllWide(v, 16);
    CopiedBelow(m.st.bytes, p);
    StillHolds(m.st.bytes, Copied(m.st.bytes, p), v);
  }

  // ---- What is in memory ----

  /** Bytes outside the copied range keep their value. */
  lemma {:induction false} CopiedOutside(bytes: Flat, p: nat, x: int)
    requires x < DST_BASE || DST_BASE + 4 * p <= x
    ensures At(Copied(bytes, p), x) == At(bytes, x)
    decreases p
  {
    hide CopyWord, At;
    if p == 0 {
    } else {
      CopiedOutside(bytes, p - 1, x);
      CopyWordFacts(Copied(bytes, p - 1), p - 1);
    }
  }

  lemma CopiedBelow(bytes: Flat, p: nat)
    ensures forall x: int :: x < DST_BASE ==> At(Copied(bytes, p), x) == At(bytes, x)
  {
    hide Copied, At;
    forall x: int | x < DST_BASE
      ensures At(Copied(bytes, p), x) == At(bytes, x)
    {
      CopiedOutside(bytes, p, x);
    }
  }

  lemma SameWord(b: Flat, b': Flat, a: int)
    requires forall x: int :: a <= x < a + 4 ==> At(b', x) == At(b, x)
    ensures WordAt(b', a) == WordAt(b, a)
  {
    hide Word, At;
  }

  /** Word `i` of the destination holds word `i` of the source, counted around the gap. */
  lemma {:induction false} CopiedWord(bytes: Flat, p: nat, i: nat)
    requires i < p
    ensures WordAt(Copied(bytes, p), DST_BASE + 4 * i) == WordAt(bytes, SRC_BASE + 4 * (i % GAP))
    decreases p
  {
    hide CopyWord, WordAt, At;
    var b := Copied(bytes, p - 1);
    CopyWordFacts(b, p - 1);
    if i < p - 1 {
      SameWord(b, Copied(bytes, p), DST_BASE + 4 * i);
      CopiedWord(bytes, p - 1, i);
    } else if i < GAP {
      forall x: int | SRC_BASE + 4 * i <= x < SRC_BASE + 4 * i + 4
        ensures At(b, x) == At(bytes, x)
      {
        CopiedOutside(bytes, p - 1, x);
      }
      SameWord(bytes, b, SRC_BASE + 4 * i);
    } else {
      CopiedWord(bytes, p - 1, i - GAP);
      assert SRC_BASE + 4 * i == DST_BASE + 4 * (i - GAP);
      assert (i - GAP) % GAP == i % GAP;
    }
  }

  function SrcWord(bytes: Flat, i: nat): bv32 { WordAt(bytes, SRC_BASE + 4 * i) }
  function DstWord(bytes: Flat, i: nat): bv32 { WordAt(bytes, DST_BASE + 4 * i) }

  /** The destination holds the first `p` words the source had. */
  ghost predicate IsCopy(bytes: Flat, bytes': Flat, p: nat) {
    forall i :: 0 <= i < p ==> DstWord(bytes', i) == SrcWord(bytes, i)
  }

  /** The source repeats itself after the gap, as far as `p` words. */
  ghost predicate Repeats(bytes: Flat, p: nat) {
    forall i :: GAP <= i < p ==> SrcWord(bytes, i % GAP) == SrcWord(bytes, i)
  }

  /** For a given memory, the loop copies if and only if the source repeats itself after the gap. */
  lemma CopiesExactly(bytes: Flat, p: nat)
    ensures IsCopy(bytes, Copied(bytes, p), p) <==> Repeats(bytes, p)
  {
    forall i | 0 <= i < p
      ensures DstWord(Copied(bytes, p), i) == SrcWord(bytes, i % GAP)
    {
      hide WordAt, Copied;
      CopiedWord(bytes, p, i);
    }
    hide SrcWord, DstWord, Copied;
    forall i | 0 <= i < GAP
      ensures i % GAP == i
    {
    }
  }

  /** It copies every memory if and only if there are at most 0x40000 words. */
  lemma CopiesUpToTheGap(p: nat)
    ensures (forall bytes: Flat :: IsCopy(bytes, Copied(bytes, p), p)) <==> p <= GAP
  {
    hide IsCopy, Repeats, Copied;
    if p <= GAP {
      forall bytes: Flat
        ensures IsCopy(bytes, Copied(bytes, p), p)
      {
        CopiesExactly(bytes, p);
        ShortRepeats(bytes, p);
      }
    } else {
      var bytes := OneByte();
      CopiesExactly(bytes, p);
      LongDoesNotRepeat(p);
    }
  }

  lemma ShortRepeats(bytes: Flat, p: nat)
    requires p <= GAP
    ensures Repeats(bytes, p)
  {
  }

  /** A memory that is zero but for the first source byte. */
  function OneByte(): Flat {
    var zero: Flat := imap[];
    zero[SRC_BASE := 1]
  }

  lemma LongDoesNotRepeat(p: nat)
    requires p > GAP
    ensures !Repeats(OneByte(), p)
  {
    var bytes := OneByte();
    assert SrcWord(bytes, GAP) == 0;
    assert SrcWord(bytes, GAP % GAP) == 1;
  }

  // ---- The count ----

  /** A machine at the start of the program, with no breakpoint on it. */
  ghost predicate AtStart(d: Debug, m: Machine, n: I32) {
    Executing(m, Code(Unsigned(n)), 0) && FreeInsts(d, Code(Unsigned(n)), 0, 19)
  }

  /** The machine at exit. */
  function AfterExit(m: Machine, n: I32): Machine {
    Exited(Passed(Prepared(m, Unsigned(n)), Passes(n)), Code(Unsigned(n)), 19)
  }

  lemma PreparedFacts(m: Machine, v: bv32)
    requires Executing(m, Code(v), 0)
    ensures var m1 := Prepared(m, v);
            Executing(m1, Code(v), 8) && AtWord(m1, 0) && m1.regs[5] == v && m1.st == m.st && !m1.halted
  {
    hide Ready, Pc, Start, Code, FromNat;
    AllWide(v, 8);
    StaysExecuting(m, Code(v), 0, Prepared(m, v), 8);
  }

  /** The setup and `p` passes, as long as they stay below the device window. */
  lemma RunsPasses(o: Oracle, d: Debug, m: Machine, n: I32, p: nat)
    requires AtStart(d, m, n) && p <= Passes(n) && (p > 0 ==> InRange(p - 1))
    ensures var v := Unsigned(n);
            && Moves(o, d, m, 8 + 8 * p, Passed(Prepared(m, v), p).(pc := Pc(Code(v), if p == Passes(n) then 16
               else 8)))
            && Passed(Prepared(m, v), p).st == m.st.(bytes := Copied(m.st.bytes, p))
            && !Passed(Prepared(m, v), p).halted
  {
    hide Moves, Executing, FreeInsts, Pc, Start, FromNat, Unsigned, Code, Passes, Passed, Prepared;
    hide AtWord, Copied, InRange;
    var v := Unsigned(n);
    CounterOf(n);
    RunsSetup(o, d, m, v);
    PreparedFacts(m, v);
    AllPasses(o, d, Prepared(m, v), v, p, Passes(n));
    PassedFacts(Prepared(m, v), p, Passes(n));
    MovesCompose(o, d, m, 8, Prepared(m, v), 8 * p,
      Passed(Prepared(m, v), p).(pc := Pc(Code(v), if p == Passes(n) then 16 else 8)));
  }

  lemma RunsToExit(o: Oracle, d: Debug, m: Machine, n: I32)
    requires AtStart(d, m, n) && InRange(Passes(n) - 1)
    ensures Moves(o, d, m, 8 + 8 * Passes(n) + 3, AfterExit(m, n))
    ensures AfterExit(m, n).halted && AfterExit(m, n).exitCode == 0
    ensures AfterExit(m, n).st == m.st.(bytes := Copied(m.st.bytes, Passes(n)))
  {
    hide Moves, Executing, FreeInsts, Pc, Start, FromNat, Unsigned, Code, Passed, Prepared, AtWord;
    hide Copied, InRange;
    var v, p := Unsigned(n), Passes(n);
    CounterOf(n);
    RunsPasses(o, d, m, n, p);
    PreparedFacts(m, v);
    PassExecuting(Prepared(m, v), v, p, p);
    AllWide(v, 17);
    AllWide(v, 18);
    BaseCode(v);
    FewerFree(d, Code(v), 16, 19, 19);
    var m1 := Passed(Prepared(m, v), p).(pc := Pc(Code(v), 16));
    RunsExit(o, d, m1, Code(v), 16);
    MovesCompose(o, d, m, 8 + 8 * p, m1, 3, AfterExit(m, n));
  }

  /**
   * `run_slice` on `memcpy_loop`, for every count, every `u32` budget and every
   * quiet host: it halts with code zero after exactly 8 + 8 * passes + 3
   * instructions if the budget allows, with `Copied` in memory and nothing else
   * changed there, and otherwise spends the budget.
   */
  lemma MemcpyLoopCount(o: Oracle, d: Debug, c: Core, n: I32, budget: U32)
    requires Quiet(o) && AtStart(d, c.m, n)
    ensures var s := RunSlice(o, d, c, budget);
            var total := 8 + 8 * Passes(n) + 3;
            if total <= budget then
              && s.status == Halted && s.steps == total && s.c.m == AfterExit(c.m, n)
              && s.c.m.st == c.m.st.(bytes := Copied(c.m.st.bytes, Passes(n)))
            else s.status == Running && s.steps == budget
  {
    hide Moves, Ready, FreeInsts, Pc, Unsigned, Code, RunSlice, Passed, Prepared, AfterExit, Copied;
    var p := Passes(n);
    if p <= 0x2000_0000 {
      RunsToExit(o, d, c.m, n);
      HaltingRun(o, d, c, 8 + 8 * p + 3, AfterExit(c.m, n), budget);
    } else {
      var q := 0x2000_0000;
      RunsPasses(o, d, c.m, n, q);
      EndlessRun(o, d, c, 8 + 8 * q, Passed(Prepared(c.m, Unsigned(n)), q).(pc := Pc(Code(Unsigned(n)), 8)), budget);
    }
  }

  /** The declared count, in `u64` arithmetic. */
  function Declared(n: I32): nat { (8 + 8 * (n % 0x1_0000_0000_0000_0000) + 3) % 0x1_0000_0000_0000_0000 }

  /** The declared count is the count of a completed run exactly for positive iteration counts that fit the budget. */
  lemma DeclaredExactlyWhenPositive(o: Oracle, d: Debug, c: Core, n: I32, budget: U32)
    requires Quiet(o) && AtStart(d, c.m, n)
    ensures var s := RunSlice(o, d, c, budget);
            (s.status == Halted && s.steps == Declared(n)) <==> (n >= 1 && 8 + 8 * n + 3 <= budget)
  {
    hide AtStart, AfterExit, Unsigned, RunSlice, Copied;
    MemcpyLoopCount(o, d, c, n, budget);
  }

  // ---- Building and running it ----

  /** `memcpy_loop`, pushed instruction by instruction. */
  method Build(n: I32) returns (p: Program, instructions: nat)
    ensures fresh(p) && p.Valid() && p.insts == Code(Unsigned(n))
    ensures instructions == Declared(n)
  {
    hide Lui, Addi, Slli, Add, Lw, Sw, Bnez, Li, Exit, Cursors, Body, Unsigned, Declared, Wrapped, Image;
    p := new Program();
    p.PushLi(5, Unsigned(n));
    PushCursors(p);
    var bodyStart := p.LenBytes();
    PushBody(p, bodyStart);
    p.PushExit();
    instructions := Declared(n);
  }

  method PushCursors(p: Program)
    requires p.Valid()
    modifies p
    ensures p.Valid() && p.insts == old(p.insts) + Cursors() && p.LenBytes() == old(p.LenBytes()) + 24
  {
    hide Addi, Slli, Image;
    p.Push32(Addi(10, 0, 0));
    p.Push32(Addi(11, 0, 0));
    p.Push32(Addi(12, 0, 0x100));
    p.Push32(Slli(12, 12, 12));
    p.Push32(Addi(13, 0, 0x200));
    p.Push32(Slli(13, 13, 12));
  }

  method PushBody(p: Program, bodyStart: int)
    requires p.Valid() && bodyStart == p.LenBytes()
    modifies p
    ensures p.Valid() && p.insts == old(p.insts) + Body()
  {
    hide Addi, Add, Lw, Sw, Bnez, Wrapped, Image;
    PushCopy(p);
    p.Push32(Addi(10, 10, 4));
    p.Push32(Addi(11, 11, 4));
    p.Push32(Addi(5, 5, 0xFFFF_FFFF));
    var back := bodyStart - p.LenBytes();
    p.Push32(Bnez(5, Wrapped(back)));
  }

  method PushCopy(p: Program)
    requires p.Valid()
    modifies p
    ensures p.Valid() && p.LenBytes() == old(p.LenBytes()) + 16
    ensures p.insts == old(p.insts) + [Wide(Add(14, 12, 10)), Wide(Lw(15, 14, 0)), Wide(Add(16, 13, 11)),
            Wide(Sw(16, 15, 0))]
  {
    hide Add, Lw, Sw, Image;
    p.Push32(Add(14, 12, 10));
    p.Push32(Lw(15, 14, 0));
    p.Push32(Add(16, 13, 11));
    p.Push32(Sw(16, 15, 0));
  }

  lemma ImageFits(v: bv32)
    ensures PROGRAM_BASE + 2 * |Image(Code(v))| <= MMIO_BASE && Start(Code(v), 0) == 0 && Pc(Code(v), 0) == 0x1000
  {
    hide Code, Image;
    AllWide(v, 19);
    AllWide(v, 0);
    assert Code(v)[..19] == Code(v);
    LiteralWord(0x1000, 0x1000);
  }

  /** A fresh CPU and memory, the program loaded, one slice. */
  method RunWorkload(o: Oracle, n: I32, budget: U32) returns (status: SliceStatus, steps: nat)
    requires Quiet(o)
    ensures var total := 8 + 8 * Passes(n) + 3;
            if total <= budget then status == Halted && steps == total else status == Running && steps == budget
  {
    hide Code, Unsigned, Declared, Image, Pc, Start, Holds, AfterExit, Contents, Copied;
    hide RunLoop.RunSlice, StoreHalves;
    var port := new Port(o);
    var cpu := new Cpu();
    cpu.pc := 0x1000;
    var mem := new Memory();
    var program, _ := Build(n);
    ImageFits(Unsigned(n));
    Loaded(mem.View(port), Code(Unsigned(n)));
    program.Load(mem, port);
    MemcpyLoopCount(o, cpu.Settings(), cpu.Whole(mem, port), n, budget);
    status, steps := cpu.RunSlice(mem, port, budget);
  }
}
