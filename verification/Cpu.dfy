/**
 * The CPU object: registers and flags updated in place, on a paged memory and a
 * host port. Every method is proved against the pure machine of the other
 * modules, so their theorems hold of this object.
 */
module Cpu {
  import opened Wrappers
  import opened Bits
  import opened HostImports
  import opened FlatMemory
  import opened PagedMemory
  import opened Instructions
  import M = Machine
  import opened Compressed
  import opened Steps
  import opened Interrupts
  import opened RunLoop

  type CpuError = M.CpuError

  class Cpu {
    var regs: M.Regs
    var fregs: M.FRegs
    var pc: bv32
    var csrs: M.Csrs
    var isHalted: bool
    var exitCode: bv32
    var debugEnabled: bool
    var breakpoints: set<bv32>
    var stepCounter: nat
    var hasCustomSyscalls: bool
    var trapped: bool
    var resumePastBreakpoint: Option<bv32>
    ghost var log: seq<Action>

    /** The machine this object, its memory and its host stand for. */
    ghost function State(mem: Memory, port: Port): M.Machine
      reads this, mem, port
    {
      M.Machine(regs, fregs, pc, csrs, isHalted, exitCode, hasCustomSyscalls, mem.View(port))
    }

    ghost function Whole(mem: Memory, port: Port): Core
      reads this, mem, port
    {
      Core(State(mem, port), trapped, stepCounter, resumePastBreakpoint, port.polls, log)
    }

    function Settings(): Debug
      reads this
    {
      Debug(debugEnabled, breakpoints)
    }

    constructor ()
      ensures regs == seq(32, _ => 0)[2 := 0x7FF_FFFC]
      ensures csrs == seq(4096, _ => 0) && fregs == seq(32, _ => 0)
      ensures pc == 0 && !isHalted && exitCode == 0 && !debugEnabled && breakpoints == {} && stepCounter == 0
      ensures !hasCustomSyscalls && !trapped && resumePastBreakpoint == None && log == []
    {
      regs := seq(32, _ => 0)[2 := 0x7FF_FFFC];
      fregs := seq(32, _ => 0);
      csrs := seq(4096, _ => 0);
      pc, isHalted, exitCode, debugEnabled, breakpoints, stepCounter := 0, false, 0, false, {}, 0;
      hasCustomSyscalls, trapped, resumePastBreakpoint, log := false, false, None, [];
    }

    // Accessors. The memory and the host are ghost parameters: they only serve to name the state.

    function GetReg(r: bv5, ghost mem: Memory, ghost port: Port): (val: bv32)
      reads this, mem, port
      ensures val == M.ReadReg(State(mem, port), r)
    {
      if r == 0 then 0 else regs[r as int]
    }

    method SetReg(r: bv5, val: bv32, ghost mem: Memory, ghost port: Port)
      modifies this`regs
      ensures State(mem, port) == M.WriteReg(old(State(mem, port)), r, val)
    {
      if r != 0 {
        regs := regs[r as int := val];
      }
    }

    function GetFreg(r: bv5, ghost mem: Memory, ghost port: Port): (bits: bv64)
      reads this, mem, port
      ensures bits == M.ReadFreg(State(mem, port), r)
    {
      fregs[r as int]
    }

    method SetFreg(r: bv5, bits: bv64, ghost mem: Memory, ghost port: Port)
      modifies this`fregs
      ensures State(mem, port) == M.SetFreg(old(State(mem, port)), r, bits)
    {
      fregs := fregs[r as int := bits];
    }

    /** `write_f64`. */
    method SetF64(r: bv5, bits: bv64, ghost mem: Memory, ghost port: Port)
      modifies this`fregs
      ensures State(mem, port) == M.WriteF64(old(State(mem, port)), r, bits)
    {
      hide M.IsNan64;
      fregs := fregs[r as int := if M.IsNan64(bits) then 0x7FF8_0000_0000_0000 else bits];
    }

    function GetCsr(num: bv12, ghost mem: Memory, ghost port: Port): (val: bv32)
      reads this, mem, port
      ensures val == M.GetCsr(State(mem, port), num)
    {
      csrs[num as int]
    }

    method SetCsr(num: bv12, val: bv32, ghost mem: Memory, ghost port: Port)
      modifies this`csrs
      ensures State(mem, port) == M.SetCsr(old(State(mem, port)), num, val)
    {
      csrs := csrs[num as int := val];
    }

    /** The arm a method has performed: an error, or the machine and the next pc. */
    ghost function Performed(err: Option<CpuError>, mem: Memory, port: Port, next: bv32): M.Arm
      reads this, mem, port
    {
      if err.Some? then M.Fault(State(mem, port), err.value) else M.Done(State(mem, port), next)
    }

    function Illegal(raw: bv32): Option<CpuError>
      reads this
    {
      Some(M.IllegalInstruction(pc, raw))
    }

    // ---- RV32I ----

    method ExecUpper(d: Inst32, mem: Memory, port: Port, fallthrough: bv32) returns (next: bv32)
      requires d.opcode in {OP_LUI, OP_AUIPC, OP_JAL, OP_JALR}
      modifies this`regs
      ensures M.Done(State(mem, port), next) == M.ExecUpper(old(State(mem, port)), d, fallthrough)
    {
      hide UImm, JImm, IImm, Plus, M.Even, M.ReadReg, M.WriteReg;
      next := fallthrough;
      if d.opcode == OP_LUI {
        SetReg(d.rd, UImm(d.raw), mem, port);
      } else if d.opcode == OP_AUIPC {
        SetReg(d.rd, Plus(pc, UImm(d.raw)), mem, port);
      } else if d.opcode == OP_JAL {
        SetReg(d.rd, next, mem, port);
        next := Plus(pc, JImm(d.raw));
      } else {
        var target := M.Even(Plus(GetReg(d.rs1, mem, port), IImm(d.raw)));
        SetReg(d.rd, next, mem, port);
        next := target;
      }
    }

    method ExecBranch(d: Inst32, ghost mem: Memory, ghost port: Port, fallthrough: bv32)
      returns (err: Option<CpuError>, next: bv32)
      ensures Performed(err, mem, port, next) == M.ExecBranch(State(mem, port), d, fallthrough)
    {
      hide BImm, Plus, M.Compare, M.ReadReg, M.WriteReg;
      err, next := None, fallthrough;
      var src1, src2 := GetReg(d.rs1, mem, port), GetReg(d.rs2, mem, port);
      if d.funct3 == 2 || d.funct3 == 3 {
        return Illegal(d.raw), fallthrough;
      }
      if M.Compare(d.funct3, src1, src2) {
        next := Plus(pc, BImm(d.raw));
      }
    }

    method ExecLoad(d: Inst32, mem: Memory, port: Port, ghost next: bv32) returns (err: Option<CpuError>)
      modifies this`regs, port`events
      ensures Performed(err, mem, port, next) == M.ExecLoad(port.oracle, old(State(mem, port)), d, next)
    {
      hide IImm, Plus, Load8, Load16, Load32, SignExtend8, SignExtend16, ZeroExtend8, ZeroExtend16;
      hide Value, Contents, M.ReadReg, M.WriteReg;
      err := None;
      var addr := Plus(GetReg(d.rs1, mem, port), IImm(d.raw));
      var val;
      if d.funct3 == 0 {
        var b := mem.ReadU8(port, Value(addr));
        val := SignExtend8(b);
      } else if d.funct3 == 1 {
        var h := mem.ReadU16(port, Value(addr));
        val := SignExtend16(h);
      } else if d.funct3 == 2 {
        val := mem.ReadU32(port, Value(addr));
      } else if d.funct3 == 4 {
        var b := mem.ReadU8(port, Value(addr));
        val := ZeroExtend8(b);
      } else if d.funct3 == 5 {
        var h := mem.ReadU16(port, Value(addr));
        val := ZeroExtend16(h);
      } else {
        return Illegal(d.raw);
      }
      SetReg(d.rd, val, mem, port);
    }

    method ExecStore(d: Inst32, mem: Memory, port: Port, ghost next: bv32) returns (err: Option<CpuError>)
      modifies mem`pages, port`events
      ensures Performed(err, mem, port, next) == M.ExecStore(old(State(mem, port)), d, next)
    {
      hide SImm, Plus, Store8, Store16, Store32, LowByte, LowHalf, Value, Contents, M.ReadReg, M.WriteReg;
      err := None;
      var addr := Plus(GetReg(d.rs1, mem, port), SImm(d.raw));
      var val := GetReg(d.rs2, mem, port);
      if d.funct3 == 0 {
        mem.WriteU8(port, Value(addr), LowByte(val));
      } else if d.funct3 == 1 {
        mem.WriteU16(port, Value(addr), LowHalf(val));
      } else if d.funct3 == 2 {
        mem.WriteU32(port, Value(addr), val);
      } else {
        err := Illegal(d.raw);
      }
    }

    method ExecOpImm(d: Inst32, ghost mem: Memory, ghost port: Port, ghost next: bv32)
      modifies this`regs
      ensures M.Done(State(mem, port), next) == M.ExecOpImm(old(State(mem, port)), d, next)
    {
      hide IImm, M.ImmResult, M.ReadReg, M.WriteReg;
      SetReg(d.rd, M.ImmResult(d.funct3, d.funct7, GetReg(d.rs1, mem, port), IImm(d.raw), d.rs2), mem, port);
    }

    method ExecOp(d: Inst32, ghost mem: Memory, ghost port: Port, ghost next: bv32) returns (err: Option<CpuError>)
      modifies this`regs
      ensures Performed(err, mem, port, next) == M.ExecOp(old(State(mem, port)), d, next)
    {
      hide M.OpResult, M.IsOp, M.ReadReg, M.WriteReg;
      if !M.IsOp(d.funct7, d.funct3) {
        return Illegal(d.raw);
      }
      SetReg(d.rd, M.OpResult(d.funct7, d.funct3, GetReg(d.rs1, mem, port), GetReg(d.rs2, mem, port)), mem, port);
      err := None;
    }

    // ---- RV32M and RV32A ----

    method ExecMulDiv(d: Inst32, ghost mem: Memory, ghost port: Port, ghost next: bv32)
      modifies this`regs
      ensures M.Done(State(mem, port), next) == M.ExecMulDiv(old(State(mem, port)), d, next)
    {
      hide M.MulDiv, M.ReadReg, M.WriteReg;
      SetReg(d.rd, M.MulDiv(d.funct3, GetReg(d.rs1, mem, port), GetReg(d.rs2, mem, port)), mem, port);
    }

    method ExecAmo(d: Inst32, mem: Memory, port: Port, ghost next: bv32) returns (err: Option<CpuError>)
      modifies this`regs, mem`pages, port`events
      ensures Performed(err, mem, port, next) == M.ExecAmo(port.oracle, old(State(mem, port)), d, next)
    {
      hide Load32, Store32, M.Funct5, M.IsAmo, M.AmoValue, Value, Contents, M.ReadReg, M.WriteReg;
      var funct5 := M.Funct5(d);
      var addr, src := GetReg(d.rs1, mem, port), GetReg(d.rs2, mem, port);
      var was := mem.ReadU32(port, Value(addr));
      if !M.IsAmo(funct5) {
        return Illegal(d.raw);
      }
      var rdVal := if funct5 == 0x03 then 0 else was;
      if funct5 != 0x02 {
        mem.WriteU32(port, Value(addr), M.AmoValue(funct5, was, src));
      }
      SetReg(d.rd, rdVal, mem, port);
      err := None;
    }

    // ---- RV32F and RV32D ----

    method ReadDouble(mem: Memory, port: Port, addr: bv32) returns (bits: bv64)
      modifies port`events
      ensures M.Got(bits, State(mem, port)) == M.GetDouble(port.oracle, old(State(mem, port)), addr)
    {
      hide Load32, Value, Plus, Pair, Contents, M.ReadReg, M.WriteReg;
      var low := mem.ReadU32(port, Value(addr));
      var high := mem.ReadU32(port, Value(Plus(addr, 4)));
      bits := Pair(low, high);
    }

    method WriteDouble(mem: Memory, port: Port, addr: bv32, bits: bv64)
      modifies mem`pages, port`events
      ensures State(mem, port) == M.PutDouble(old(State(mem, port)), addr, bits)
    {
      hide Store32, Value, Plus, LowWord, HighWord, Contents, M.ReadReg, M.WriteReg;
      mem.WriteU32(port, Value(addr), LowWord(bits));
      mem.WriteU32(port, Value(Plus(addr, 4)), HighWord(bits));
    }

    method ExecLoadFp(d: Inst32, mem: Memory, port: Port, ghost next: bv32) returns (err: Option<CpuError>)
      modifies this`fregs, port`events
      ensures Performed(err, mem, port, next) == M.ExecLoadFp(port.oracle, old(State(mem, port)), d, next)
    {
      hide IImm, Plus, Load32, M.GetDouble, M.WriteF64, M.SetFreg, M.Boxed, Value, Contents, M.ReadReg;
      hide M.WriteReg;
      err := None;
      var addr := Plus(GetReg(d.rs1, mem, port), IImm(d.raw));
      if d.funct3 == 2 {
        var raw := mem.ReadU32(port, Value(addr));
        SetFreg(d.rd, M.Boxed(raw), mem, port);
      } else if d.funct3 == 3 {
        var bits := ReadDouble(mem, port, addr);
        SetF64(d.rd, bits, mem, port);
      } else {
        err := Illegal(d.raw);
      }
    }

    method ExecStoreFp(d: Inst32, mem: Memory, port: Port, ghost next: bv32) returns (err: Option<CpuError>)
      modifies mem`pages, port`events
      ensures Performed(err, mem, port, next) == M.ExecStoreFp(old(State(mem, port)), d, next)
    {
      hide SImm, Plus, Store32, M.PutDouble, LowWord, M.ReadFreg, Value, Contents, M.ReadReg, M.WriteReg;
      err := None;
      var addr := Plus(GetReg(d.rs1, mem, port), SImm(d.raw));
      if d.funct3 == 2 {
        mem.WriteU32(port, Value(addr), LowWord(GetFreg(d.rs2, mem, port)));
      } else if d.funct3 == 3 {
        WriteDouble(mem, port, addr, GetFreg(d.rs2, mem, port));
      } else {
        err := Illegal(d.raw);
      }
    }

    method ExecFpu(d: Inst32, ghost mem: Memory, port: Port, ghost next: bv32) returns (err: Option<CpuError>)
      modifies this`regs, this`fregs
      ensures Performed(err, mem, port, next) == M.ExecFpu(port.oracle, old(State(mem, port)), d, next)
    {
      err := None;
      var operands := FpOperands(d.raw, GetReg(d.rs1, mem, port), GetFreg(d.rs1, mem, port),
        GetFreg(d.rs2, mem, port), GetFreg(d.rs3, mem, port));
      assert operands == M.Operands(State(mem, port), d);
      hide M.Operands, M.ReadReg, M.WriteReg, M.ReadFreg, M.SetFreg;
      match port.oracle.fpu(operands) {
        case FpIllegal => err := Illegal(d.raw);
        case FpNothing =>
        case FpToInteger(x) => SetReg(d.rd, x, mem, port);
        case FpToFloat(f) => SetFreg(d.rd, f, mem, port);
      }
    }

    // ---- System calls ----

    method SysWrite(mem: Memory, port: Port, args: SyscallArgs)
      modifies this`regs, port`events
      ensures State(mem, port) == M.SysWrite(port.oracle, old(State(mem, port)), args)
    {
      hide ByteLoads, M.Count, Value, Contents, M.ReadReg, M.WriteReg;
      var bytes := mem.ReadBytes(port, Value(args.a1), M.Count(args.a2));
      if args.a0 == 1 {
        port.Tell(Stdout(bytes));
      } else if args.a0 == 2 {
        port.Tell(Stderr(bytes));
      }
      SetReg(M.A0, args.a2, mem, port);
    }

    method SysRead(mem: Memory, port: Port, args: SyscallArgs)
      modifies this`regs, mem`pages, port`events
      ensures State(mem, port) == M.SysRead(port.oracle, old(State(mem, port)), args)
    {
      hide ByteStores, StdinBytes, M.Count, FromNat, Value, Contents, M.ReadReg, M.WriteReg;
      var data := port.ReadFromStdin(M.Count(args.a2));
      if |data| > 0 {
        mem.WriteBytes(port, Value(args.a1), data);
        SetReg(M.A0, FromNat(|data|), mem, port);
      } else {
        SetReg(M.A0, 0, mem, port);
      }
    }

    method SysBrk(mem: Memory, ghost port: Port, args: SyscallArgs)
      modifies this`regs, mem`brkPtr
      ensures State(mem, port) == M.SysBrk(old(State(mem, port)), args)
    {
      hide FlatMemory.SetBrk, Contents, M.ReadReg, M.WriteReg;
      if args.a0 != 0 {
        mem.SetBrk(args.a0, port);
      }
      SetReg(M.A0, mem.GetBrk(), mem, port);
    }

    method BuiltinSyscall(mem: Memory, port: Port, args: SyscallArgs, ghost next: bv32) returns (err: Option<CpuError>)
      modifies this`regs, this`isHalted, this`exitCode, mem, port`events
      ensures Performed(err, mem, port, next) == M.BuiltinSyscall(port.oracle, old(State(mem, port)), args, next)
    {
      hide M.SysWrite, M.SysRead, M.SysBrk, Contents, M.ReadReg, M.WriteReg;
      err := None;
      var n := args.a7;
      if n == 93 || n == 10 || n == 1 {
        isHalted := true;
        exitCode := args.a0;
      } else if n == 64 || n == 4 {
        SysWrite(mem, port, args);
      } else if n == 63 || n == 3 {
        SysRead(mem, port, args);
      } else if n == 214 || n == 45 {
        SysBrk(mem, port, args);
      } else if n == 57 || n == 62 || n == 80 {
        SetReg(M.A0, 0, mem, port);
      } else {
        err := Some(M.UnknownSyscall(args));
      }
    }

    method HandleEcall(mem: Memory, port: Port, ghost next: bv32) returns (err: Option<CpuError>)
      modifies this`regs, this`isHalted, this`exitCode, mem, port`events
      ensures Performed(err, mem, port, next) == M.ExecEcall(port.oracle, old(State(mem, port)), next)
    {
      hide M.BuiltinSyscall, Contents, M.ReadReg, M.WriteReg;
      var args := SyscallArgs(GetReg(M.A0, mem, port), GetReg(M.A1, mem, port), GetReg(M.A2, mem, port),
        GetReg(M.A3, mem, port), GetReg(M.A7, mem, port));
      if hasCustomSyscalls {
        var res := port.CustomSyscall(args);
        if res != 0 {
          SetReg(M.A0, res, mem, port);
          return None;
        }
      }
      err := BuiltinSyscall(mem, port, args, next);
    }

    // ---- CSRs, MRET and interrupts ----

    method Mret(ghost mem: Memory, ghost port: Port, fallthrough: bv32) returns (next: bv32)
      modifies this`csrs
      ensures M.Done(State(mem, port), next) == M.ExecMret(old(State(mem, port)), fallthrough)
    {
      hide M.ExecMret, M.GetCsr, M.SetCsr;
      MretArm(State(mem, port), fallthrough);
      next := fallthrough;
      var mepc := GetCsr(M.MEPC, mem, port);
      if mepc != 0 {
        next := mepc;
      }
      var mstatus := GetCsr(M.MSTATUS, mem, port);
      var mstatus' := (mstatus & !M.MSTATUS_MIE) | M.MSTATUS_MPIE;
      if mstatus & M.MSTATUS_MPIE != 0 {
        mstatus' := mstatus' | M.MSTATUS_MIE;
      }
      assert mstatus' == Returned(mstatus);
      hide Returned;
      SetCsr(M.MSTATUS, mstatus', mem, port);
    }

    method ExecCsr(d: Inst32, ghost mem: Memory, ghost port: Port, ghost next: bv32)
      modifies this`csrs, this`regs
      ensures M.Done(State(mem, port), next) == M.ExecCsr(old(State(mem, port)), d, next)
    {
      hide M.GetCsr, M.SetCsr, M.CsrResult, M.CsrNumber, M.ReadReg, M.WriteReg;
      var num := M.CsrNumber(d.raw);
      var was := GetCsr(num, mem, port);
      SetCsr(num, M.CsrResult(d.funct3, was, GetReg(d.rs1, mem, port), d.rs1 as bv32), mem, port);
      SetReg(d.rd, was, mem, port);
    }

    method ExecSystem(d: Inst32, mem: Memory, port: Port, fallthrough: bv32) returns (err: Option<CpuError>, next: bv32)
      modifies this`regs, this`csrs, this`isHalted, this`exitCode, mem, port`events
      ensures Performed(err, mem, port, next) == M.ExecSystem(port.oracle, old(State(mem, port)), d, fallthrough)
    {
      hide M.ExecEcall, M.ExecMret, M.ExecCsr, M.CsrNumber, Contents, M.ReadReg, M.WriteReg;
      err, next := None, fallthrough;
      if d.funct3 == 0 {
        var imm12 := M.CsrNumber(d.raw);
        if imm12 == 0 {
          err := HandleEcall(mem, port, fallthrough);
        } else if imm12 == 1 {
          isHalted := true;
        } else if imm12 == 0x302 {
          next := Mret(mem, port, fallthrough);
        }
      } else {
        ExecCsr(d, mem, port, fallthrough);
      }
    }

    method HandleInterrupt(irq: bv32, ghost mem: Memory, ghost port: Port)
      modifies this`csrs, this`pc
      ensures State(mem, port) == TakeInterrupt(old(State(mem, port)), irq)
    {
      hide M.GetCsr, M.SetCsr;
      SetCsr(M.MEPC, pc, mem, port);
      SetCsr(M.MCAUSE, 0x8000_0000 | irq, mem, port);
      var mstatus := GetCsr(M.MSTATUS, mem, port);
      var mstatus' := mstatus & !(M.MSTATUS_MIE | M.MSTATUS_MPIE);
      if mstatus & M.MSTATUS_MIE != 0 {
        mstatus' := mstatus' | M.MSTATUS_MPIE;
      }
      assert mstatus' == Entered(mstatus);
      hide Entered;
      SetCsr(M.MSTATUS, mstatus', mem, port);
      var mtvec := GetCsr(M.MTVEC, mem, port);
      if mtvec != 0 {
        pc := mtvec;
      }
    }

    // ---- The 32-bit executor ----

    method Dispatch(d: Inst32, mem: Memory, port: Port, fallthrough: bv32) returns (err: Option<CpuError>, next: bv32)
      modifies this`regs, this`fregs, this`csrs, this`isHalted, this`exitCode, mem, port`events
      ensures Performed(err, mem, port, next) == M.Dispatch(port.oracle, old(State(mem, port)), d, fallthrough)
    {
      hide M.ExecOp, M.ExecMulDiv, M.ExecUpper, M.ExecBranch, M.ExecLoad, M.ExecStore, M.ExecOpImm;
      hide M.ExecLoadFp, M.ExecStoreFp, M.ExecSystem, M.ExecAmo, M.ExecFpu, Contents;
      err, next := None, fallthrough;
      if d.opcode == OP_OP {
        if d.funct7 == 0x01 {
          ExecMulDiv(d, mem, port, fallthrough);
        } else {
          err := ExecOp(d, mem, port, fallthrough);
        }
      } else if d.opcode == OP_LUI || d.opcode == OP_AUIPC || d.opcode == OP_JAL || d.opcode == OP_JALR {
        next := ExecUpper(d, mem, port, fallthrough);
      } else if d.opcode == OP_BRANCH {
        err, next := ExecBranch(d, mem, port, fallthrough);
      } else if d.opcode == OP_LOAD {
        err := ExecLoad(d, mem, port, fallthrough);
      } else if d.opcode == OP_STORE {
        err := ExecStore(d, mem, port, fallthrough);
      } else if d.opcode == OP_IMM {
        ExecOpImm(d, mem, port, fallthrough);
      } else if d.opcode == OP_MISC_MEM {
      } else if d.opcode == OP_AMO {
        err := ExecAmo(d, mem, port, fallthrough);
      } else if d.opcode == OP_LOAD_FP {
        err := ExecLoadFp(d, mem, port, fallthrough);
      } else if d.opcode == OP_STORE_FP {
        err := ExecStoreFp(d, mem, port, fallthrough);
      } else if d.opcode in {OP_MADD, OP_MSUB, OP_NMSUB, OP_NMADD, OP_OP_FP} {
        err := ExecFpu(d, mem, port, fallthrough);
      } else if d.opcode == OP_SYSTEM {
        err, next := ExecSystem(d, mem, port, fallthrough);
      } else {
        err := Some(M.UnknownOpcode(pc, d.opcode));
      }
    }

    ghost function Ended(err: Option<CpuError>, mem: Memory, port: Port): M.Outcome
      reads this, mem, port
    {
      if err.Some? then M.Err(State(mem, port), err.value) else M.Ok(State(mem, port))
    }

    method ExecuteInst32(raw: bv32, mem: Memory, port: Port) returns (err: Option<CpuError>)
      modifies this`regs, this`fregs, this`pc, this`csrs, this`isHalted, this`exitCode, mem, port`events
      ensures Ended(err, mem, port) == M.Execute32(port.oracle, old(State(mem, port)), raw)
    {
      hide Decode, M.Dispatch, Plus, Contents;
      var next;
      err, next := Dispatch(Decode(raw), mem, port, Plus(pc, 4));
      if err.None? {
        pc := next;
      }
    }

    // ---- The 16-bit executor ----

    method ExecQuadrant0(inst: bv16, mem: Memory, port: Port, ghost next: bv32) returns (err: Option<CpuError>)
      modifies this`regs, this`fregs, mem`pages, port`events
      ensures Performed(err, mem, port, next) == Quadrant0(port.oracle, old(State(mem, port)), inst, next)
    {
      hide Funct3, Creg, Addi4spnImm, ClWordOffset, ClDoubleOffset, Plus, Value, Contents, Load32;
      hide Store32, LowWord;
      hide M.ReadReg, M.WriteReg, M.ReadFreg, M.SetFreg, M.WriteF64, M.Boxed, M.GetDouble, M.PutDouble;
      err := None;
      var f, low := Funct3(inst), Creg(inst, 2);
      var base := GetReg(Creg(inst, 7), mem, port);
      if f == 0 {
        if Addi4spnImm(inst) == 0 {
          return Illegal(inst as bv32);
        }
        SetReg(low, Plus(GetReg(2, mem, port), Addi4spnImm(inst)), mem, port);
      } else if f == 1 {
        var bits := ReadDouble(mem, port, Plus(base, ClDoubleOffset(inst)));
        SetF64(low, bits, mem, port);
      } else if f == 2 {
        var val := mem.ReadU32(port, Value(Plus(base, ClWordOffset(inst))));
        SetReg(low, val, mem, port);
      } else if f == 3 {
        var raw := mem.ReadU32(port, Value(Plus(base, ClWordOffset(inst))));
        SetFreg(low, M.Boxed(raw), mem, port);
      } else if f == 5 {
        WriteDouble(mem, port, Plus(base, ClDoubleOffset(inst)), GetFreg(low, mem, port));
      } else if f == 6 {
        mem.WriteU32(port, Value(Plus(base, ClWordOffset(inst))), GetReg(low, mem, port));
      } else if f == 7 {
        mem.WriteU32(port, Value(Plus(base, ClWordOffset(inst))), LowWord(GetFreg(low, mem, port)));
      } else {
        err := Illegal(inst as bv32);
      }
    }

    method ExecLuiGroup(inst: bv16, ghost mem: Memory, ghost port: Port, ghost next: bv32)
      returns (err: Option<CpuError>)
      modifies this`regs
      ensures Performed(err, mem, port, next) == Compressed.ExecLuiGroup(old(State(mem, port)), inst, next)
    {
      hide Reg, Imm6, Imm6Extended, Addi16spImm, Addi16spExtended, Plus, Shl, M.ReadReg, M.WriteReg;
      err := None;
      var rd := Reg(inst, 7);
      if rd == 2 {
        if Addi16spImm(inst) == 0 {
          return Illegal(inst as bv32);
        }
        SetReg(2, Plus(GetReg(2, mem, port), Addi16spExtended(inst)), mem, port);
      } else if rd != 0 {
        if Imm6(inst) == 0 {
          return Illegal(inst as bv32);
        }
        SetReg(rd, Shl(Imm6Extended(inst), 12), mem, port);
      } else {
        err := Illegal(inst as bv32);
      }
    }

    method ExecArithmeticGroup(inst: bv16, ghost mem: Memory, ghost port: Port, ghost next: bv32)
      returns (err: Option<CpuError>)
      modifies this`regs
      ensures Performed(err, mem, port, next) == Compressed.ExecArithmeticGroup(old(State(mem, port)), inst, next)
    {
      hide Creg, Field, Shamt, Imm6Extended, Minus, Xor, Or, And, Shr, Sra, M.ReadReg, M.WriteReg;
      err := None;
      var rd, bit12, kind := Creg(inst, 7), Field(inst, 12, 1), Field(inst, 10, 0x3);
      var src := GetReg(rd, mem, port);
      if kind == 0 || kind == 1 {
        if bit12 != 0 {
          return Illegal(inst as bv32);
        }
        var shamt := Shamt(inst);
        if shamt != 0 {
          SetReg(rd, if kind == 0 then Shr(src, shamt) else Sra(src, shamt), mem, port);
        }
      } else if kind == 2 {
        SetReg(rd, And(src, Imm6Extended(inst)), mem, port);
      } else {
        if bit12 != 0 {
          return Illegal(inst as bv32);
        }
        var src2, which := GetReg(Creg(inst, 2), mem, port), Field(inst, 5, 0x3);
        var val := if which == 0 then Minus(src, src2)
                   else if which == 1 then Xor(src, src2)
                   else if which == 2 then Or(src, src2)
                   else And(src, src2);
        SetReg(rd, val, mem, port);
      }
    }

    method ExecQuadrant1(inst: bv16, ghost mem: Memory, ghost port: Port, fallthrough: bv32)
      returns (err: Option<CpuError>, next: bv32)
      modifies this`regs
      ensures Performed(err, mem, port, next) == Quadrant1(old(State(mem, port)), inst, fallthrough)
    {
      hide Funct3, Reg, Creg, Imm6Extended, CjOffset, CbOffset, Plus, M.ReadReg, M.WriteReg;
      hide Compressed.ExecLuiGroup, Compressed.ExecArithmeticGroup;
      err, next := None, fallthrough;
      var f, rd := Funct3(inst), Reg(inst, 7);
      if f == 0 {
        if rd != 0 && Imm6Extended(inst) != 0 {
          SetReg(rd, Plus(GetReg(rd, mem, port), Imm6Extended(inst)), mem, port);
        }
      } else if f == 1 {
        SetReg(1, next, mem, port);
        next := Plus(pc, CjOffset(inst));
      } else if f == 2 {
        SetReg(rd, Imm6Extended(inst), mem, port);
      } else if f == 3 {
        err := ExecLuiGroup(inst, mem, port, fallthrough);
      } else if f == 4 {
        err := ExecArithmeticGroup(inst, mem, port, fallthrough);
      } else if f == 5 {
        next := Plus(pc, CjOffset(inst));
      } else if f == 6 {
        if GetReg(Creg(inst, 7), mem, port) == 0 {
          next := Plus(pc, CbOffset(inst));
        }
      } else {
        if GetReg(Creg(inst, 7), mem, port) != 0 {
          next := Plus(pc, CbOffset(inst));
        }
      }
    }

    method ExecJumpGroup(inst: bv16, ghost mem: Memory, ghost port: Port, fallthrough: bv32)
      returns (err: Option<CpuError>, next: bv32)
      modifies this`regs, this`isHalted
      ensures Performed(err, mem, port, next) == Compressed.ExecJumpGroup(old(State(mem, port)), inst, fallthrough)
    {
      hide Reg, Field, Plus, M.Even, M.ReadReg, M.WriteReg;
      err, next := None, fallthrough;
      var rd, rs2, bit12 := Reg(inst, 7), Reg(inst, 2), Field(inst, 12, 1);
      if bit12 == 0 && rs2 == 0 {
        if rd == 0 {
          return Illegal(inst as bv32), fallthrough;
        }
        next := M.Even(GetReg(rd, mem, port));
      } else if bit12 == 0 && rs2 != 0 {
        if rd != 0 {
          SetReg(rd, GetReg(rs2, mem, port), mem, port);
        }
      } else if rd == 0 && rs2 == 0 {
        isHalted := true;
      } else if rs2 == 0 {
        var target := M.Even(GetReg(rd, mem, port));
        SetReg(1, next, mem, port);
        next := target;
      } else {
        if rd != 0 {
          SetReg(rd, Plus(GetReg(rd, mem, port), GetReg(rs2, mem, port)), mem, port);
        }
      }
    }

    method ExecQuadrant2(inst: bv16, mem: Memory, port: Port, fallthrough: bv32)
      returns (err: Option<CpuError>, next: bv32)
      modifies this`regs, this`fregs, this`isHalted, mem`pages, port`events
      ensures Performed(err, mem, port, next) == Quadrant2(port.oracle, old(State(mem, port)), inst, fallthrough)
    {
      hide Funct3, Reg, Field, Shamt, CiWordSpOffset, CiDoubleSpOffset, CssWordSpOffset;
      hide CssDoubleSpOffset, Plus, Value, Contents, Load32, Store32, LowWord, Shl;
      hide M.ReadReg, M.WriteReg, M.ReadFreg, M.SetFreg, M.WriteF64, M.Boxed, M.GetDouble, M.PutDouble;
      hide Compressed.ExecJumpGroup;
      err, next := None, fallthrough;
      var f, rd, rs2 := Funct3(inst), Reg(inst, 7), Reg(inst, 2);
      var sp := GetReg(2, mem, port);
      if f == 0 {
        if Field(inst, 12, 1) != 0 {
          return Illegal(inst as bv32), fallthrough;
        }
        var shamt := Shamt(inst);
        if rd != 0 && shamt != 0 {
          SetReg(rd, Shl(GetReg(rd, mem, port), shamt), mem, port);
        }
      } else if f == 1 {
        var bits := ReadDouble(mem, port, Plus(sp, CiDoubleSpOffset(inst)));
        SetF64(rd, bits, mem, port);
      } else if f == 2 {
        if rd == 0 {
          return Illegal(inst as bv32), fallthrough;
        }
        var val := mem.ReadU32(port, Value(Plus(sp, CiWordSpOffset(inst))));
        SetReg(rd, val, mem, port);
      } else if f == 3 {
        var raw := mem.ReadU32(port, Value(Plus(sp, CiWordSpOffset(inst))));
        SetFreg(rd, M.Boxed(raw), mem, port);
      } else if f == 4 {
        err, next := ExecJumpGroup(inst, mem, port, fallthrough);
      } else if f == 5 {
        WriteDouble(mem, port, Plus(sp, CssDoubleSpOffset(inst)), GetFreg(rs2, mem, port));
      } else if f == 6 {
        mem.WriteU32(port, Value(Plus(sp, CssWordSpOffset(inst))), GetReg(rs2, mem, port));
      } else {
        mem.WriteU32(port, Value(Plus(sp, CssWordSpOffset(inst))), LowWord(GetFreg(rs2, mem, port)));
      }
    }

    method ExecuteInst16(inst: bv16, mem: Memory, port: Port) returns (err: Option<CpuError>)
      modifies this`regs, this`fregs, this`pc, this`isHalted, mem`pages, port`events
      ensures Ended(err, mem, port) == Execute16(port.oracle, old(State(mem, port)), inst)
    {
      hide Op, Quadrant0, Quadrant1, Quadrant2, Plus, Contents;
      err := None;
      var next := Plus(pc, 2);
      if Op(inst) == 0 {
        err := ExecQuadrant0(inst, mem, port, next);
      } else if Op(inst) == 1 {
        err, next := ExecQuadrant1(inst, mem, port, next);
      } else if Op(inst) == 2 {
        err, next := ExecQuadrant2(inst, mem, port, next);
      } else {
        err := Illegal(inst as bv32);
      }
      if err.None? {
        pc := next;
      }
    }

    // ---- Fetch and execute ----

    method FetchAndExecute(mem: Memory, port: Port) returns (err: Option<CpuError>)
      modifies this`regs, this`fregs, this`pc, this`csrs, this`isHalted, this`exitCode, mem, port`events
      ensures Ended(err, mem, port) == FetchExecute(port.oracle, old(State(mem, port)))
    {
      hide TwoReadFetch, Execute16, M.Execute32, LowHalf, Value, Contents;
      var compressed, raw := mem.FetchInstruction(port, Value(pc));
      if compressed {
        err := ExecuteInst16(LowHalf(raw), mem, port);
      } else {
        err := ExecuteInst32(raw, mem, port);
      }
    }

    /** What both loops do with a fault: tell the host, then stop the machine. */
    method StopOnTrap(e: CpuError, ghost mem: Memory, port: Port)
      modifies this`trapped, this`exitCode, this`isHalted, port`events
      ensures State(mem, port) == Stopped(old(State(mem, port)), e) && trapped
    {
      if e.UnknownSyscall? {
        port.Tell(UnknownSyscallNotice(e.args));
      }
      trapped := true;
      exitCode := TRAP_EXIT_CODE;
      isHalted := true;
    }

    /** Execute the instruction at the pc; a fault stops the machine. */
    method TryOne(mem: Memory, port: Port) returns (retired: bool)
      modifies this`regs, this`fregs, this`pc, this`csrs, this`isHalted, this`exitCode, this`trapped, this`log,
          mem, port`events
      ensures (if retired then Retired(Whole(mem, port)) else Faulted(Whole(mem, port))) ==
              Try(port.oracle, old(Whole(mem, port)))
    {
      hide FetchExecute, Stopped, Contents;
      ghost var at := pc;
      var err := FetchAndExecute(mem, port);
      log := log + [Executed(at)];
      if err.Some? {
        StopOnTrap(err.value, mem, port);
      }
      retired := err.None?;
    }

    // ---- The debugger's single step ----

    method StepInstruction(mem: Memory, port: Port) returns (result: StepResult)
      modifies this`regs, this`fregs, this`pc, this`csrs, this`isHalted, this`exitCode, this`trapped, this`log
      modifies this`stepCounter, this`resumePastBreakpoint, mem, port`events
      ensures Stepped(Whole(mem, port), result) ==
              RunLoop.StepInstruction(port.oracle, Settings(), old(Whole(mem, port)))
    {
      hide Try, Memory.View, RunLoop.StepInstruction;
      StepForms(port.oracle, Settings(), Whole(mem, port));
      if debugEnabled && pc in breakpoints && resumePastBreakpoint != Some(pc) {
        resumePastBreakpoint := Some(pc);
        return BreakpointHit(pc);
      }
      resumePastBreakpoint := None;
      if isHalted {
        return StepHalted(exitCode);
      }
      var at := pc;
      var retired := TryOne(mem, port);
      stepCounter := stepCounter + 1;
      if !retired {
        return Trap(at);
      }
      result := if isHalted then StepHalted(exitCode) else StepOk;
    }

    // ---- The run loop ----

    /** Ask the host for the poll interval, and take an interrupt if there is one. */
    method PollHost(ghost mem: Memory, port: Port) returns (interval: nat)
      modifies this`csrs, this`pc, this`log, port`polls
      ensures Whole(mem, port) == AfterPoll(port.oracle, old(Whole(mem, port)))
      ensures interval == Interval(Polled(port.oracle, old(Whole(mem, port))).delay)
    {
      hide TakeInterrupt, MieSet, Interval, Contents;
      var enabled := MieSet(GetCsr(M.MSTATUS, mem, port));
      var p := port.PollInterrupt(enabled);
      if p.enabled && enabled && p.irq != 0 {
        HandleInterrupt(p.irq, mem, port);
        log := log + [Interrupted(p.irq)];
      }
      interval := Interval(p.delay);
    }

    /** One turn of the inner loop: stop, or execute one instruction. */
    method Turn(mem: Memory, port: Port, watch: bool, skip: Option<bv32>)
      returns (skip': Option<bv32>, stopped: Option<SliceStatus>)
      modifies this`regs, this`fregs, this`pc, this`csrs, this`isHalted, this`exitCode, this`trapped, this`log
      modifies this`stepCounter, this`resumePastBreakpoint, mem, port`events
      ensures Chunk(Whole(mem, port), if stopped.Some? then 0 else 1, skip', stopped) ==
              RunChunk(port.oracle, Settings(), watch, old(Whole(mem, port)), skip, 1)
    {
      hide Try, RunChunk, Memory.View;
      skip', stopped := skip, None;
      ChunkEnds(port.oracle, Settings(), watch, Whole(mem, port), skip, 1);
      if isHalted {
        stopped := Some(Halted);
        return;
      }
      if watch && pc in breakpoints && skip != Some(pc) {
        resumePastBreakpoint := Some(pc);
        stopped := Some(Breakpoint);
        return;
      }
      ChunkTurns(port.oracle, Settings(), watch, Whole(mem, port), skip, 1);
      if watch {
        skip' := None;
      }
      var retired := TryOne(mem, port);
      if !retired {
        stopped := Some(Trapped);
        return;
      }
      stepCounter := stepCounter + 1;
      ChunkEnds(port.oracle, Settings(), watch, Whole(mem, port), skip', 0);
    }

    /** The inner loop of `run_slice`. */
    method RunUntilPoll(mem: Memory, port: Port, watch: bool, skip: Option<bv32>, count: nat)
      returns (done: nat, skip': Option<bv32>, stopped: Option<SliceStatus>)
      modifies this`regs, this`fregs, this`pc, this`csrs, this`isHalted, this`exitCode, this`trapped, this`log
      modifies this`stepCounter, this`resumePastBreakpoint, mem, port`events
      ensures Chunk(Whole(mem, port), done, skip', stopped) ==
              RunChunk(port.oracle, Settings(), watch, old(Whole(mem, port)), skip, count)
    {
      hide Try, RunChunk, Memory.View;
      done, skip', stopped := 0, skip, None;
      ghost var whole := RunChunk(port.oracle, Settings(), watch, Whole(mem, port), skip, count);
      while done < count
        invariant 0 <= done <= count
        invariant var rest := RunChunk(port.oracle, Settings(), watch, Whole(mem, port), skip', count - done);
                  whole == rest.(done := done + rest.done)
        decreases count - done
      {
        ChunkSplits(port.oracle, Settings(), watch, Whole(mem, port), skip', count - done);
        skip', stopped := Turn(mem, port, watch, skip');
        if stopped.Some? {
          return;
        }
        done := done + 1;
      }
      ChunkEnds(port.oracle, Settings(), watch, Whole(mem, port), skip', 0);
      stopped := None;
    }

    method RunSlice(mem: Memory, port: Port, budget: nat) returns (status: SliceStatus, steps: nat)
      modifies this`regs, this`fregs, this`pc, this`csrs, this`isHalted, this`exitCode, this`trapped, this`log
      modifies this`stepCounter, this`resumePastBreakpoint, mem, port`events, port`polls
      ensures Slice(Whole(mem, port), status, steps) ==
              RunLoop.RunSlice(port.oracle, Settings(), old(Whole(mem, port)), budget)
    {
      hide RunFrom, RunChunk, AfterPoll, Polled, Interval, Memory.View;
      var executed: nat := 0;
      var watch := debugEnabled && breakpoints != {};
      var skip := resumePastBreakpoint;
      resumePastBreakpoint := None;
      ghost var whole := RunFrom(port.oracle, Settings(), watch, Whole(mem, port), skip, budget);
      while true
        invariant executed <= budget
        invariant var rest := RunFrom(port.oracle, Settings(), watch, Whole(mem, port), skip, budget - executed);
                  whole == rest.(steps := executed + rest.steps)
        decreases budget - executed
      {
        LoopEnds(port.oracle, Settings(), watch, Whole(mem, port), skip, budget - executed);
        if isHalted {
          return Halted, executed;
        }
        if executed >= budget {
          return Running, executed;
        }
        LoopTurns(port.oracle, Settings(), watch, Whole(mem, port), skip, budget - executed);
        var interval := PollHost(mem, port);
        var count := Min(interval, budget - executed);
        var done, stopped;
        done, skip, stopped := RunUntilPoll(mem, port, watch, skip, count);
        executed := executed + done;
        if stopped.Some? {
          return stopped.value, executed;
        }
      }
    }
  }
}
