/**
 * The guest-visible machine and the meaning of every 32-bit instruction.
 *
 * `Base` is the body of the 32-bit executor with the fall-through address as a
 * parameter; `Execute32` is `Base` with the address of the next word. Words are
 * bit vectors, float registers are 64-bit patterns, and IEEE arithmetic is a
 * function supplied by the host.
 */
module Machine {
  import opened Bits
  import opened HostImports
  import opened FlatMemory
  import opened Instructions

  type Regs = s: seq<bv32> | |s| == 32 witness seq(32, _ => 0)
  type FRegs = s: seq<bv64> | |s| == 32 witness seq(32, _ => 0)
  type Csrs = s: seq<bv32> | |s| == 4096 witness seq(4096, _ => 0)

  const MSTATUS: bv12 := 0x300
  const MTVEC: bv12 := 0x305
  const MEPC: bv12 := 0x341
  const MCAUSE: bv12 := 0x342

  const MSTATUS_MIE: bv32 := 0x8
  const MSTATUS_MPIE: bv32 := 0x80

  const A0: bv5 := 10
  const A1: bv5 := 11
  const A2: bv5 := 12
  const A3: bv5 := 13
  const A7: bv5 := 17

  datatype Machine = Machine(
    regs: Regs,
    fregs: FRegs,
    pc: bv32,
    csrs: Csrs,
    halted: bool,
    exitCode: bv32,
    customSyscalls: bool,
    st: Store)

  datatype CpuError =
    | IllegalInstruction(pc: bv32, raw: bv32)
    | UnknownOpcode(pc: bv32, opcode: bv7)
    | UnknownSyscall(args: SyscallArgs)

  /** Result of executing one instruction. The machine after a fault carries the host calls made before it. */
  datatype Outcome = Ok(m: Machine) | Err(m: Machine, error: CpuError)

  /** One arm of the executor: the machine before the pc is committed, and the next pc. */
  datatype Arm = Done(m: Machine, next: bv32) | Fault(m: Machine, error: CpuError)

  function ReadReg(m: Machine, r: bv5): bv32 {
    if r == 0 then 0 else m.regs[r as int]
  }

  function WriteReg(m: Machine, r: bv5, val: bv32): Machine {
    if r != 0 then m.(regs := m.regs[r as int := val]) else m
  }

  /** Effective address `rs1 + offset`, wrapping. */
  function Address(m: Machine, rs1: bv5, offset: bv32): bv32 { Plus(ReadReg(m, rs1), offset) }

  /** Target of a pc-relative jump. */
  function Target(m: Machine, offset: bv32): bv32 { Plus(m.pc, offset) }

  /** Register-indirect jumps clear the lowest bit. */
  function Even(addr: bv32): bv32 { addr & !1 }

  function GetCsr(m: Machine, num: bv12): bv32 { m.csrs[num as int] }

  function SetCsr(m: Machine, num: bv12, val: bv32): Machine {
    m.(csrs := m.csrs[num as int := val])
  }

  function SetFreg(m: Machine, r: bv5, bits: bv64): Machine {
    m.(fregs := m.fregs[r as int := bits])
  }

  function ReadFreg(m: Machine, r: bv5): bv64 { m.fregs[r as int] }

  predicate IsNan64(bits: bv64) {
    bits & 0x7FF0_0000_0000_0000 == 0x7FF0_0000_0000_0000 && bits & 0x000F_FFFF_FFFF_FFFF != 0
  }

  /** `write_f64`: every NaN becomes the canonical one. */
  function WriteF64(m: Machine, r: bv5, bits: bv64): Machine {
    SetFreg(m, r, if IsNan64(bits) then 0x7FF8_0000_0000_0000 else bits)
  }

  /** A single-precision pattern as it sits in a 64-bit register. */
  function Boxed(bits: bv32): bv64 { 0xFFFF_FFFF_0000_0000 | (bits as bv64) }

  function Flag(b: bool): bv32 { if b then 1 else 0 }

  function Illegal(m: Machine, raw: bv32): Arm {
    Fault(m, IllegalInstruction(m.pc, raw))
  }

  // ---- Memory accesses of a whole machine ----

  datatype Got<T> = Got(val: T, m: Machine)

  function Get8(o: Oracle, m: Machine, addr: bv32): Got<bv8> {
    var r := Load8(o, m.st, Value(addr));
    Got(r.val, m.(st := r.st))
  }

  function Get16(o: Oracle, m: Machine, addr: bv32): Got<bv16> {
    var r := Load16(o, m.st, Value(addr));
    Got(r.val, m.(st := r.st))
  }

  function Get32(o: Oracle, m: Machine, addr: bv32): Got<bv32> {
    var r := Load32(o, m.st, Value(addr));
    Got(r.val, m.(st := r.st))
  }

  function Put8(m: Machine, addr: bv32, val: bv8): Machine { m.(st := Store8(m.st, Value(addr), val)) }

  function Put16(m: Machine, addr: bv32, val: bv16): Machine { m.(st := Store16(m.st, Value(addr), val)) }

  function Put32(m: Machine, addr: bv32, val: bv32): Machine { m.(st := Store32(m.st, Value(addr), val)) }

  function GetDouble(o: Oracle, m: Machine, addr: bv32): Got<bv64> {
    var low := Get32(o, m, addr);
    var high := Get32(o, low.m, Plus(addr, 4));
    Got(Pair(low.val, high.val), high.m)
  }

  function PutDouble(m: Machine, addr: bv32, bits: bv64): Machine {
    Put32(Put32(m, addr, LowWord(bits)), Plus(addr, 4), HighWord(bits))
  }

  // ---- RV32I ----

  predicate Compare(funct3: bv3, a: bv32, b: bv32)
    requires funct3 != 2 && funct3 != 3
  {
    if funct3 == 0 then a == b
    else if funct3 == 1 then a != b
    else if funct3 == 4 then SignedLess(a, b)
    else if funct3 == 5 then !SignedLess(a, b)
    else if funct3 == 6 then a < b
    else a >= b
  }

  function ExecBranch(m: Machine, d: Inst32, next: bv32): Arm {
    if d.funct3 == 2 || d.funct3 == 3 then Illegal(m, d.raw)
    else if Compare(d.funct3, ReadReg(m, d.rs1), ReadReg(m, d.rs2)) then Done(m, Target(m, BImm(d.raw)))
    else Done(m, next)
  }

  function ExecLoad(o: Oracle, m: Machine, d: Inst32, next: bv32): Arm {
    var addr := Address(m, d.rs1, IImm(d.raw));
    if d.funct3 == 0 then
      var r := Get8(o, m, addr);
      Done(WriteReg(r.m, d.rd, SignExtend8(r.val)), next)
    else if d.funct3 == 1 then
      var r := Get16(o, m, addr);
      Done(WriteReg(r.m, d.rd, SignExtend16(r.val)), next)
    else if d.funct3 == 2 then
      var r := Get32(o, m, addr);
      Done(WriteReg(r.m, d.rd, r.val), next)
    else if d.funct3 == 4 then
      var r := Get8(o, m, addr);
      Done(WriteReg(r.m, d.rd, ZeroExtend8(r.val)), next)
    else if d.funct3 == 5 then
      var r := Get16(o, m, addr);
      Done(WriteReg(r.m, d.rd, ZeroExtend16(r.val)), next)
    else Illegal(m, d.raw)
  }

  function ExecStore(m: Machine, d: Inst32, next: bv32): Arm {
    var addr := Address(m, d.rs1, SImm(d.raw));
    var val := ReadReg(m, d.rs2);
    if d.funct3 == 0 then Done(Put8(m, addr, LowByte(val)), next)
    else if d.funct3 == 1 then Done(Put16(m, addr, LowHalf(val)), next)
    else if d.funct3 == 2 then Done(Put32(m, addr, val), next)
    else Illegal(m, d.raw)
  }

  function ImmResult(funct3: bv3, funct7: bv7, src: bv32, imm: bv32, shamt: bv5): bv32 {
    if funct3 == 0 then Plus(src, imm)
    else if funct3 == 2 then Flag(SignedLess(src, imm))
    else if funct3 == 3 then Flag(src < imm)
    else if funct3 == 4 then Xor(src, imm)
    else if funct3 == 6 then Or(src, imm)
    else if funct3 == 7 then And(src, imm)
    else if funct3 == 1 then Shl(src, shamt)
    else if funct7 == 0x20 then Sra(src, shamt)
    else Shr(src, shamt)
  }

  function ExecOpImm(m: Machine, d: Inst32, next: bv32): Arm {
    Done(WriteReg(m, d.rd, ImmResult(d.funct3, d.funct7, ReadReg(m, d.rs1), IImm(d.raw), d.rs2)), next)
  }

  function ShiftAmount(x: bv32): bv5 { (x & 0x1F) as bv5 }

  predicate IsOp(funct7: bv7, funct3: bv3) {
    funct7 == 0x00 || (funct7 == 0x20 && (funct3 == 0 || funct3 == 5))
  }

  function OpResult(funct7: bv7, funct3: bv3, a: bv32, b: bv32): bv32
    requires IsOp(funct7, funct3)
  {
    if funct3 == 0 then (if funct7 == 0x20 then Minus(a, b) else Plus(a, b))
    else if funct3 == 1 then Shl(a, ShiftAmount(b))
    else if funct3 == 2 then Flag(SignedLess(a, b))
    else if funct3 == 3 then Flag(a < b)
    else if funct3 == 4 then Xor(a, b)
    else if funct3 == 5 then (if funct7 == 0x20 then Sra(a, ShiftAmount(b)) else Shr(a, ShiftAmount(b)))
    else if funct3 == 6 then Or(a, b)
    else And(a, b)
  }

  function ExecOp(m: Machine, d: Inst32, next: bv32): Arm {
    if IsOp(d.funct7, d.funct3) then
      Done(WriteReg(m, d.rd, OpResult(d.funct7, d.funct3, ReadReg(m, d.rs1), ReadReg(m, d.rs2))), next)
    else Illegal(m, d.raw)
  }

  /** Upper immediates and unconditional jumps. */
  function ExecUpper(m: Machine, d: Inst32, next: bv32): Arm {
    if d.opcode == OP_LUI then Done(WriteReg(m, d.rd, UImm(d.raw)), next)
    else if d.opcode == OP_AUIPC then Done(WriteReg(m, d.rd, Target(m, UImm(d.raw))), next)
    else if d.opcode == OP_JAL then Done(WriteReg(m, d.rd, next), Target(m, JImm(d.raw)))
    else
      var target := Even(Address(m, d.rs1, IImm(d.raw)));
      Done(WriteReg(m, d.rd, next), target)
  }

  // ---- RV32M ----

  /** Division truncating toward zero, as Rust's `i32` division. */
  function TruncDiv(a: int, b: int): int
    requires b != 0
  {
    var q := Abs(a) / Abs(b);
    if (a < 0) == (b < 0) then q else -q
  }

  function Abs(x: int): nat { if x < 0 then -x else x }

  /** The `u32` image of an integer: Rust's wrapping conversion. */
  function Wrapped(n: int): bv32 { FromNat(n % WORD) }

  function MulDiv(funct3: bv3, a: bv32, b: bv32): bv32 {
    if funct3 == 0 then Wrapped(Value(a) * Value(b))
    else if funct3 == 1 then Wrapped(Signed(a) * Signed(b) / WORD)
    else if funct3 == 2 then Wrapped(Signed(a) * Value(b) / WORD)
    else if funct3 == 3 then Wrapped(Value(a) * Value(b) / WORD)
    else if funct3 == 4 then
      if b == 0 then 0xFFFF_FFFF else DivideWords(Signed(a), Signed(b))
    else if funct3 == 5 then
      if b == 0 then 0xFFFF_FFFF else DivideWords(Value(a), Value(b))
    else if funct3 == 6 then
      if b == 0 then a else RemainderWords(Signed(a), Signed(b))
    else
      if b == 0 then a else RemainderWords(Value(a), Value(b))
  }

  function DivideWords(x: int, y: int): bv32 {
    if y == 0 then 0xFFFF_FFFF else Wrapped(TruncDiv(x, y))
  }

  function RemainderWords(x: int, y: int): bv32 {
    if y == 0 then Wrapped(x) else Wrapped(x - TruncDiv(x, y) * y)
  }

  function ExecMulDiv(m: Machine, d: Inst32, next: bv32): Arm {
    Done(WriteReg(m, d.rd, MulDiv(d.funct3, ReadReg(m, d.rs1), ReadReg(m, d.rs2))), next)
  }

  // ---- RV32A ----

  predicate IsAmo(funct5: bv7) {
    funct5 in {0x00, 0x01, 0x02, 0x03, 0x04, 0x08, 0x0C, 0x10, 0x14, 0x18, 0x1C}
  }

  function AmoValue(funct5: bv7, was: bv32, src: bv32): bv32 {
    if funct5 == 0x02 then was
    else if funct5 == 0x03 || funct5 == 0x01 then src
    else if funct5 == 0x00 then Plus(was, src)
    else if funct5 == 0x04 then Xor(was, src)
    else if funct5 == 0x0C then And(was, src)
    else if funct5 == 0x08 then Or(was, src)
    else if funct5 == 0x10 then (if SignedLess(src, was) then src else was)
    else if funct5 == 0x14 then (if SignedLess(was, src) then src else was)
    else if funct5 == 0x18 then (if src < was then src else was)
    else (if was < src then src else was)
  }

  /** The operation field of an atomic. */
  function Funct5(d: Inst32): bv7 { d.funct7 >> 2 }

  /** The read happens before the operation is checked, so an illegal one has still touched a device. */
  function ExecAmo(o: Oracle, m: Machine, d: Inst32, next: bv32): Arm {
    var funct5 := Funct5(d);
    var addr := ReadReg(m, d.rs1);
    var src := ReadReg(m, d.rs2);
    var was := Get32(o, m, addr);
    if !IsAmo(funct5) then Fault(was.m, IllegalInstruction(m.pc, d.raw))
    else
      var m1 := if funct5 == 0x02 then was.m else Put32(was.m, addr, AmoValue(funct5, was.val, src));
      Done(WriteReg(m1, d.rd, if funct5 == 0x03 then 0 else was.val), next)
  }

  // ---- RV32F and RV32D: moves between registers and memory; arithmetic is the host's ----

  function ExecLoadFp(o: Oracle, m: Machine, d: Inst32, next: bv32): Arm {
    var addr := Address(m, d.rs1, IImm(d.raw));
    if d.funct3 == 2 then
      var r := Get32(o, m, addr);
      Done(SetFreg(r.m, d.rd, Boxed(r.val)), next)
    else if d.funct3 == 3 then
      var r := GetDouble(o, m, addr);
      Done(WriteF64(r.m, d.rd, r.val), next)
    else Illegal(m, d.raw)
  }

  function ExecStoreFp(m: Machine, d: Inst32, next: bv32): Arm {
    var addr := Address(m, d.rs1, SImm(d.raw));
    var bits := ReadFreg(m, d.rs2);
    if d.funct3 == 2 then Done(Put32(m, addr, LowWord(bits)), next)
    else if d.funct3 == 3 then Done(PutDouble(m, addr, bits), next)
    else Illegal(m, d.raw)
  }

  function Operands(m: Machine, d: Inst32): FpOperands {
    FpOperands(d.raw, ReadReg(m, d.rs1), ReadFreg(m, d.rs1), ReadFreg(m, d.rs2), ReadFreg(m, d.rs3))
  }

  function ExecFpu(o: Oracle, m: Machine, d: Inst32, next: bv32): Arm {
    match o.fpu(Operands(m, d))
    case FpIllegal => Illegal(m, d.raw)
    case FpNothing => Done(m, next)
    case FpToInteger(x) => Done(WriteReg(m, d.rd, x), next)
    case FpToFloat(f) => Done(SetFreg(m, d.rd, f), next)
  }

  // ---- System calls ----

  function Args(m: Machine): SyscallArgs {
    SyscallArgs(ReadReg(m, A0), ReadReg(m, A1), ReadReg(m, A2), ReadReg(m, A3), ReadReg(m, A7))
  }

  function Record(m: Machine, e: Event): Machine {
    m.(st := m.st.(events := m.st.events + [e]))
  }

  const COUNT_LIMIT: int := 16 * 1024 * 1024

  function Count(x: bv32): nat {
    if Value(x) <= COUNT_LIMIT then Value(x) else COUNT_LIMIT
  }

  function SysWrite(o: Oracle, m: Machine, args: SyscallArgs): Machine {
    var r := ByteLoads(o, m.st, Value(args.a1), Count(args.a2));
    var m1 := m.(st := r.st);
    var m2 := if args.a0 == 1 then Record(m1, Stdout(r.val))
              else if args.a0 == 2 then Record(m1, Stderr(r.val))
              else m1;
    WriteReg(m2, A0, args.a2)
  }

  function SysRead(o: Oracle, m: Machine, args: SyscallArgs): Machine {
    var data := StdinBytes(o, m.st.events, Count(args.a2));
    var m1 := Record(m, Stdin(Count(args.a2)));
    if |data| > 0 then
      WriteReg(m1.(st := ByteStores(m1.st, Value(args.a1), data)), A0, FromNat(|data|))
    else
      WriteReg(m1, A0, 0)
  }

  function SysBrk(m: Machine, args: SyscallArgs): Machine {
    var m1 := if args.a0 != 0 then m.(st := SetBrk(m.st, args.a0)) else m;
    WriteReg(m1, A0, m1.st.brk)
  }

  /** The emulator's own system calls, by number. */
  function BuiltinSyscall(o: Oracle, m: Machine, args: SyscallArgs, next: bv32): Arm {
    var n := args.a7;
    if n == 93 || n == 10 || n == 1 then Done(m.(halted := true, exitCode := args.a0), next)
    else if n == 64 || n == 4 then Done(SysWrite(o, m, args), next)
    else if n == 63 || n == 3 then Done(SysRead(o, m, args), next)
    else if n == 214 || n == 45 then Done(SysBrk(m, args), next)
    else if n == 57 || n == 62 || n == 80 then Done(WriteReg(m, A0, 0), next)
    else Fault(m, UnknownSyscall(args))
  }

  function ExecEcall(o: Oracle, m: Machine, next: bv32): Arm {
    var args := Args(m);
    if m.customSyscalls then
      var res := o.customSyscall(m.st.events, args);
      var m1 := Record(m, CustomSyscall(args));
      if res != 0 then Done(WriteReg(m1, A0, res), next) else BuiltinSyscall(o, m1, args, next)
    else BuiltinSyscall(o, m, args, next)
  }

  // ---- CSRs and MRET ----

  function CsrNumber(raw: bv32): bv12 { (raw >> 20) as bv12 }

  function ExecMret(m: Machine, next: bv32): Arm {
    var mepc := GetCsr(m, MEPC);
    var mstatus := GetCsr(m, MSTATUS);
    var enabled := (mstatus & !MSTATUS_MIE) | MSTATUS_MPIE;
    var mstatus' := if mstatus & MSTATUS_MPIE != 0 then enabled | MSTATUS_MIE else enabled;
    Done(SetCsr(m, MSTATUS, mstatus'), if mepc != 0 then mepc else next)
  }

  function CsrResult(funct3: bv3, was: bv32, src: bv32, imm: bv32): bv32 {
    if funct3 == 1 then src
    else if funct3 == 2 then Or(was, src)
    else if funct3 == 3 then And(was, Not(src))
    else if funct3 == 5 then imm
    else if funct3 == 6 then Or(was, imm)
    else if funct3 == 7 then And(was, Not(imm))
    else was
  }

  function ExecCsr(m: Machine, d: Inst32, next: bv32): Arm {
    var num := CsrNumber(d.raw);
    var was := GetCsr(m, num);
    var m1 := SetCsr(m, num, CsrResult(d.funct3, was, ReadReg(m, d.rs1), d.rs1 as bv32));
    Done(WriteReg(m1, d.rd, was), next)
  }

  function ExecSystem(o: Oracle, m: Machine, d: Inst32, next: bv32): Arm {
    if d.funct3 == 0 then
      var imm12 := CsrNumber(d.raw);
      if imm12 == 0 then ExecEcall(o, m, next)
      else if imm12 == 1 then Done(m.(halted := true), next)
      else if imm12 == 0x302 then ExecMret(m, next)
      else Done(m, next)
    else ExecCsr(m, d, next)
  }

  // ---- Dispatch ----

  function Dispatch(o: Oracle, m: Machine, d: Inst32, next: bv32): Arm {
    if d.opcode == OP_OP then
      if d.funct7 == 0x01 then ExecMulDiv(m, d, next) else ExecOp(m, d, next)
    else if d.opcode == OP_LUI || d.opcode == OP_AUIPC || d.opcode == OP_JAL || d.opcode == OP_JALR then
      ExecUpper(m, d, next)
    else if d.opcode == OP_BRANCH then ExecBranch(m, d, next)
    else if d.opcode == OP_LOAD then ExecLoad(o, m, d, next)
    else if d.opcode == OP_STORE then ExecStore(m, d, next)
    else if d.opcode == OP_IMM then ExecOpImm(m, d, next)
    else if d.opcode == OP_MISC_MEM then Done(m, next)
    else if d.opcode == OP_AMO then ExecAmo(o, m, d, next)
    else if d.opcode == OP_LOAD_FP then ExecLoadFp(o, m, d, next)
    else if d.opcode == OP_STORE_FP then ExecStoreFp(m, d, next)
    else if d.opcode in {OP_MADD, OP_MSUB, OP_NMSUB, OP_NMADD, OP_OP_FP} then ExecFpu(o, m, d, next)
    else if d.opcode == OP_SYSTEM then ExecSystem(o, m, d, next)
    else Fault(m, UnknownOpcode(m.pc, d.opcode))
  }

  function Commit(a: Arm): Outcome {
    match a
    case Done(m, next) => Ok(m.(pc := next))
    case Fault(m, e) => Err(m, e)
  }

  /** A 32-bit encoding executed as an instruction that is followed by `next`. */
  function Base(o: Oracle, m: Machine, raw: bv32, next: bv32): Outcome {
    Commit(Dispatch(o, m, Decode(raw), next))
  }

  function Execute32(o: Oracle, m: Machine, raw: bv32): Outcome {
    Base(o, m, raw, Plus(m.pc, 4))
  }
}
