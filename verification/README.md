# riscv-rs in Dafny

A model of `riscv-rs`, an RV32IMAFDC emulator, and proofs about it: the run loop
and its debugger, the meaning of every 16- and 32-bit instruction, the lazily
paged memory, and the loader, disassembler and benchmark program built on them.

## How it is layered

- `Wrappers`, `Bits`, `Instructions`, `HostImports`: options, words, encodings, and the host. The host is
  an oracle whose answers are any functions of what it has been asked; every call
  the guest causes is an event in a trace. A *quiet* host never delivers an interrupt.
- `FlatMemory`, `PagedMemory`: byte memory with a device window, with the byte-at-a-time
  default methods of the `MemoryOps` trait as specification; the class `Memory` with its
  page table refines it, device calls and their order included.
- `Machine`, `Compressed`: the guest-visible machine and its two executors as functions.
  `Formats` says what an encoded instruction means, `Expansion` gives the RV32C
  expansions of chapter 16 of the RISC-V Unprivileged ISA, version 20191213, with
  immediates written independently of the executor, one bit at a time.
- `Frames`, `Steps`, `Interrupts`: what one step keeps, when it faults, where it goes.
- `RunLoop`: `RunSlice` (the nested loop with polls, budget and breakpoints),
  `StepInstruction` (the debugger's step) and `Stepping` (that step again and again).
  `Slicing`, `Runs`, `Reachable` and `Breakpoints` are theorems about whole runs, which a
  log of executed instructions and delivered interrupts records.
- `Arithmetic`, `Multiply`, `Integers`, `Addressing`, `Csrs`, `Devices`, `Legality`: what the
  executor does on encoded instructions, stated on numbers, bits and device calls instead of
  through the model's own operations. `Coherence`, `Disassembler`, `Syscalls`: store/load
  coherence, agreement of the disassembler with the executors, and system calls by number.
- `Delivery`, `Outcomes`: the schedule of polls, interrupts and instructions that every slice
  follows, and what a debugger step reports.
- `Cpu`, `Debugger`, `Simulator`, `Loader`: the objects and loops that change state in
  place. Each method is proved equal to the function above that it implements, so the
  theorems hold of the objects; new objects satisfy the reachable-state invariant.
- `Guest`, `AluLoop`, `MixedLoop`, `MemcpyLoop`: guest programs in memory, from the encoders
  of the throughput benchmark to exact instruction counts and memory contents.

## What the proofs found

- C.LUI with rd = x0 and a nonzero immediate is a HINT (section 16.5 of the Unprivileged
  ISA), which the executor rejects as illegal; so does the disassembler. `Expansion.StandardExactlyOffHints`
  proves this is the only family on which the 16-bit executor departs from the standard.
- After a trap `step_instruction` has counted the faulting instruction and `run_slice` has
  not; everything else agrees (`Slicing.SliceIsStepping`).
- A slice with budget zero discards a pending breakpoint resume. `Slicing.EmptySliceMattersExactly`
  says when that changes the following slice, and `Slicing.AnySlicingIsOneSlice` when it
  changes a whole session: exactly if the session starts with an empty slice, is not empty,
  and the machine waits at a reported breakpoint.
- On a halted machine that sits at an unreported breakpoint, `step_instruction` reports the
  breakpoint and `run_slice` reports the halt. That is the only disagreement
  (`Slicing.AgreeUnlessHaltedAtBreakpoint`, `Slicing.HaltedAtBreakpointExample`).
- FSD then FLD does not always restore a register: a double load canonicalises NaNs, which
  section 12.3 of the Unprivileged ISA rules out. The register survives exactly if it is not
  a NaN or is the canonical one (`Coherence.DoubleStoreThenLoad`), so every NaN-boxed single
  is lost (`Coherence.SpilledSingleIsLost`).
- Zero in `mepc` or `mtvec` means unset: MRET then falls through, so an interrupt taken at
  address zero is not returned to (`Reachable.InterruptsDoNotNest`, an if and only if).
- A fault of the 32-bit executor leaves no trace at all unless an atomic reached the device
  window or a custom system-call handler was asked, and then it always leaves one
  (`Steps.TrapsArePrecise32`). The atomic has performed its read (`Steps.IllegalAmoHasRead`).
- `is_call_instruction` takes C.ADD and C.EBREAK for calls (`Debugger.CallsRecognised`).
- `write` returns the count it was asked for even when it has written only its 16 MiB limit
  (`Syscalls.WriteEmitsMemory`).
- The benchmarks' declared instruction counts are right exactly for positive iteration counts
  that fit the budget (`AluLoop.DeclaredExactlyWhenPositive` and its two companions); zero
  wraps to 2^32 passes.
- `memcpy_loop` copies every memory exactly up to 0x40000 words; beyond that it reads what it
  has written (`MemcpyLoop.CopiesUpToTheGap`).

## Model

| member | source | states |
|---|---|---|
| `Slicing.SliceIsStepping` | src/cpu.rs:352-468 | On a quiet host, from any machine that runs and for every positive budget, a slice leaves the same machine, flags, pending breakpoint, stop reason and retired count as calling the debugger step until it stops; only the step counter is one lower after a trap |
| `Slicing.SlicesCompose` | src/cpu.rs:352-468 | A slice of a > 0 that ends Running followed by a slice of b is one slice of a + b: same state, status and total steps, for any breakpoints and poll delays |
| `Slicing.AnySlicingIsOneSlice` | tests/run_slice_tests.rs:88-116 | Any sequence of budgets gives the run of one slice with their sum if and only if it does not start with an empty slice, or is empty altogether, or the machine does not wait at a reported breakpoint |
| `Slicing.EarlyStop` | src/cpu.rs:352-468 | A slice that stops before its budget is spent is not changed by a larger budget |
| `Slicing.RunningSlice` | src/cpu.rs:357-401 | On any host, a slice that runs out of budget leaves a running machine and no pending breakpoint |
| `Slicing.EmptySliceMattersExactly` | src/cpu.rs:353-367 | On any host, an empty slice before a slice of n changes nothing, poll history included, if and only if the machine is halted or the poll does not leave it at the breakpoint that was to be passed |
| `Slicing.EmptySliceMatters` | src/cpu.rs:353-367 | On a quiet host that is: unless the machine waits at a reported breakpoint |
| `Slicing.AgreeUnlessHaltedAtBreakpoint` | src/cpu.rs:235-251 | From any core, halted or not, slice and stepping tell the same run if and only if the machine is not halted at an unreported breakpoint |
| `Slicing.HaltedAtBreakpointExample` | src/cpu.rs:235-251 | A core where the slice says Halted and the stepper Breakpoint |
| `Slicing.SlicesComposeOnPollBoundary` | src/cpu.rs:352-468 | On any host, interrupts included, a Running slice that ends where a poll is due composes exactly with the next, log and poll history included |
| `Runs.SliceReplays` | src/cpu.rs:352-468 | On any host the log of a slice replays, instruction by instruction and interrupt by interrupt, from its first machine to its last, with interrupts only where the guest allowed them |
| `Runs.StepReplays` | src/cpu.rs:235-293 | The same for a debugger step |
| `Delivery.SliceDelivers` | src/cpu.rs:368-389 | On any host the log of a slice follows the schedule, stated on the machine and the host's answers: every poll with an interrupt for a guest with MIE set delivers it there and then, nowhere else is one delivered, as many instructions run between polls as the delay read as `u64` says (1000 for zero), and the slice stops early only halted or at an active breakpoint |
| `Delivery.FirstPollDelivers` | src/cpu.rs:375-380 | The first thing a slice does is take the host's interrupt if and only if the host has one and the guest has MIE set |
| `Delivery.DeliveryExample` | src/cpu.rs:375-380 | Interrupt 11 with a handler at 0x100: pc, mepc and mcause |
| `Outcomes.StepReports` | src/cpu.rs:235-293 | The whole new state and the report of a debugger step, case by case: breakpoint, halted, success, halt with its code, trap at the pc it had |
| `Outcomes.TrapState` | src/cpu.rs:266-286 | A fault leaves the executor's state, halted with code 134, and the host told exactly of an unknown system call |
| `Outcomes.UnknownCallIsReported` | src/cpu.rs:266-286 | An ECALL with an unknown number traps and the host learns its arguments, after a custom handler was asked |
| `Reachable.SessionKeepsInvariant` | src/cpu.rs:443-450 | Through any mix of slices, steps, interrupts, system calls and breakpoint changes, x0 stays 0, the heap break stays in [initial break, MMIO base), trapped implies halted with code 134, and the host trace only grows |
| `Simulator.NewIsSound` | src/cpu.rs:213-232 | A session of new objects satisfies that invariant |
| `Simulator.ReachableIsSound` | src/lib.rs:81-93 | So does every state it reaches, whatever the host and the commands |
| `Simulator.Simulator.constructor` | src/lib.rs:81-93 | New CPU, memory and port: registers zero but for sp, memory zero, and the invariant |
| `Simulator.Simulator.RunSlice` | src/lib.rs:247-249 | A slice performs the session's slice command and keeps the invariant |
| `Simulator.Simulator.DebugStep` | src/lib.rs:271-278 | A step performs the session's step command, keeps the invariant, and reports a breakpoint exactly at an unreported one |
| `Simulator.Simulator.WriteMemoryByte` | src/lib.rs:341-343 | A byte written by the debugger is the guest's byte write and keeps the invariant |
| `Simulator.Simulator.WriteRegister` | src/lib.rs:345-349 | Registers outside the file are ignored, x0 stays zero, and the invariant is kept |
| `Reachable.HaltedForever` | src/cpu.rs:363-365 | No session changes a halted machine or executes anything on it |
| `Reachable.SliceAccounting` | src/cpu.rs:353-467 | A slice retires at most its budget, adds exactly that to the step counter, is Running only with the whole budget spent and the machine alive, Halted or Trapped only with the machine halted, Breakpoint only at a breakpoint with its resume armed |
| `Reachable.TrappedSliceIsPrecise` | src/cpu.rs:419-450 | A Trapped slice has the pc, registers, CSRs, memory and break of the state its run reached just before the faulting instruction |
| `Reachable.RunKeepsPcEven` | src/cpu.rs:519-537 | From an even pc, every run in which mepc and mtvec hold even values has an even pc at every point, across both executors and interrupts |
| `Reachable.MaskedRun` | src/cpu.rs:375-380 | With MIE clear and no write to mstatus or mepc and no MRET, a run takes no interrupt and keeps both CSRs |
| `Reachable.InterruptsDoNotNest` | src/cpu.rs:519-537 | After an interrupt, an undisturbed run takes no second one and mepc keeps the interrupted pc; MRET then restores mstatus with MPIE set and goes to that pc exactly when it is not zero (or the fall-through is zero too) |
| `Breakpoints.SliceRespectsBreakpoints` | src/cpu.rs:357-401 | With debugging on, no slice executes an instruction at a breakpoint, on any host, unless it is the first one and at the address already reported |
| `Breakpoints.RespectsAt` | src/cpu.rs:391-401 | What that says of one logged instruction: an executed breakpoint is the one to pass, and only interrupts come before it |
| `Breakpoints.BreakpointNotReportedTwice` | src/cpu.rs:472-485 | Two consecutive positive slices never report the same breakpoint with nothing retired in between, even when interrupts arrive |
| `Breakpoints.NoThirdStall` | src/cpu.rs:472-485 | After two slices in a row that retire nothing, the third executes an instruction |
| `Breakpoints.SliceMakesProgress` | src/cpu.rs:357-401 | A positive slice retires an instruction, traps, or stops at a breakpoint it was not asked to pass |
| `Interrupts.EntrySaves` | src/cpu.rs:519-537 | Interrupt entry saves the pc in mepc, sets mcause, masks interrupts, goes to mtvec if it is set, and touches no other CSR |
| `Interrupts.EntryMasks` | src/cpu.rs:511-537 | After entry interrupts are disabled |
| `Interrupts.EntryThenReturnBits` | src/cpu.rs:1243-1257 | Entry then return leaves mstatus as it was with MPIE set |
| `Interrupts.StepKeepsCsr` | src/cpu.rs:1225-1276 | A step changes a CSR only by a CSR instruction that names it or, for mstatus, by MRET |
| `Interrupts.StepOfMret` | src/cpu.rs:1243-1257 | MRET goes to mepc unless it is zero and restores mstatus |
| `Csrs.CsrInstruction` | src/cpu.rs:1258-1274 | Each encoded CSR instruction puts the old value into rd and writes, sets or clears each bit by the operand's bit, register or zero-extended field; no other CSR changes, and nothing else but the pc |
| `Csrs.EnablingInterrupts` | src/cpu.rs:1265-1266 | CSRRS on mstatus with bit 3 set enables interrupts |
| `Csrs.EntryBits` | src/cpu.rs:519-537 | Interrupt entry clears MIE, moves it to MPIE and keeps every other bit |
| `Csrs.ReturnBits` | src/cpu.rs:1243-1257 | MRET moves MPIE to MIE, sets MPIE and keeps every other bit |
| `Expansion.CompressedRefinesBase` | src/cpu.rs:1279-1623 | For every machine and every halfword but a C.LUI hint, the 16-bit executor faults exactly when the standard gives no expansion, and otherwise is the 32-bit executor on the expansion with the following address two bytes on |
| `Expansion.OnlyLengthDiffers` | src/cpu.rs:540-573 | Changing the address that follows any 32-bit encoding changes only a fall-through pc and the link value of JAL and JALR |
| `Expansion.CompressedMatchesExpansion` | src/cpu.rs:1279-1623 | `execute_inst16` and `execute_inst32` on the expansion leave equal machines but for a fall-through pc of +2 against +4 and the link value |
| `Expansion.LuiHintRejected` | src/cpu.rs:1381-1417 | On a C.LUI hint the standard asks for a no-op and the executor faults |
| `Expansion.StandardExactlyOffHints` | src/cpu.rs:1279-1623 | The executor does what the standard asks if and only if the halfword is not a C.LUI hint |
| `Expansion.LuiHintExample` | src/cpu.rs:1381-1417 | 0x6005 is such a halfword |
| `Steps.TrapsArePrecise32` | src/cpu.rs:540-735 | A fault of the 32-bit executor, for any encoding and machine, changes no register, CSR, byte or pc, and changes nothing at all if and only if it is not an atomic that reaches the device window nor a system call with a custom handler |
| `Steps.TrapsArePrecise16` | src/cpu.rs:1279-1623 | A fault of the 16-bit executor leaves the whole machine alone |
| `Steps.IllegalAmoHasRead` | src/cpu.rs:784-821 | An unknown atomic faults with exactly the effect of its load |
| `Steps.LoadIsSilent` | src/memory.rs:184-208 | A word load leaves no trace if and only if it lies wholly below the device window |
| `Steps.StepFramed` | src/cpu.rs:403-417 | A step keeps x0, the break's range and the host trace as a prefix; a faulting one keeps the guest state |
| `Steps.StepGoesEven` | src/cpu.rs:589-618 | A step from an even pc with an even mepc lands on an even pc |
| `Steps.OffsetsAreEven` | src/inst.rs:101-123 | Branch and jump offsets of every encoding are even |
| `Frames.DispatchFramed` | src/cpu.rs:540-573 | Every 32-bit encoding keeps the frame, and only SYSTEM reaches the CSRs |
| `Frames.Arm16Framed` | src/cpu.rs:1279-1623 | Every 16-bit encoding keeps the frame, and a faulting one changes nothing |
| `Formats.DecodeI` | src/inst.rs:74-90 | Decoding recovers every field of an I-type encoding and every 12-bit immediate |
| `Formats.DecodeS` | src/inst.rs:93-99 | The same for S-type |
| `Formats.DecodeB` | src/inst.rs:101-109 | The same for B-type and every even 13-bit offset |
| `Formats.DecodeU` | src/inst.rs:111-114 | The same for U-type |
| `Formats.DecodeJ` | src/inst.rs:116-123 | The same for J-type and every even 21-bit offset |
| `Formats.DecodeR` | src/inst.rs:74-85 | The same for R-type |
| `Multiply.MulhIsExact` | src/cpu.rs:744-747 | MUL and MULH are the two words of the signed product |
| `Multiply.MulhsuIsExact` | src/cpu.rs:744-748 | MUL and MULHSU are the two words of the mixed product |
| `Multiply.MulhuIsExact` | src/cpu.rs:744-749 | MUL and MULHU are the two words of the unsigned product |
| `Multiply.DivisionReconstructs` | src/cpu.rs:750-771 | Quotient times divisor plus remainder is the dividend modulo 2^32 for DIV/REM and DIVU/REMU, for all operands |
| `Multiply.RemIsExact` | src/cpu.rs:750-764 | Signed division truncates: the remainder is smaller than the divisor, has the dividend's sign, and the identity is exact but for the one overflow, whose results are -2^31 and 0 |
| `Multiply.RemuIsExact` | src/cpu.rs:757-771 | Unsigned division is exact, with a remainder below the divisor |
| `Multiply.DivisionForms` | src/cpu.rs:750-771 | Division by zero gives all ones and the dividend |
| `Arithmetic.AddSubMean` | src/cpu.rs:695-696 | ADD, ADDI and SUB are addition and subtraction modulo 2^32 |
| `Arithmetic.SetLessMean` | src/cpu.rs:698-711 | SLT and SLTU, register and immediate, compare the signed and the unsigned numbers |
| `Arithmetic.ShiftsMean` | src/cpu.rs:697-714 | SLL multiplies modulo 2^32, SRL divides, SRA divides the signed number rounding down, by two to the low five bits |
| `Arithmetic.BranchesMean` | src/cpu.rs:598-618 | Each branch condition is the integer comparison it is named after |
| `Arithmetic.AmoExtremesMean` | src/cpu.rs:805-808 | AMOMIN(U) and AMOMAX(U) store the smaller or larger operand, signed or unsigned |
| `Arithmetic.AmoValuesMean` | src/cpu.rs:794-804 | AMOADD is the sum modulo 2^32, AMOXOR, AMOAND and AMOOR combine bit by bit, AMOSWAP and SC.W store the operand |
| `Arithmetic.LogicMeans` | src/cpu.rs:671-673 | XOR, OR and AND, and their immediate forms, bit by bit |
| `Integers.SumsAndComparisons` | src/cpu.rs:691-711 | Encoded ADD, SUB, SLT and SLTU: what rd holds on numbers, and nothing else changes but the pc |
| `Integers.Shifts` | src/cpu.rs:697-714 | Encoded SLL, SRL and SRA on numbers |
| `Integers.BitOperations` | src/cpu.rs:712-716 | Encoded XOR, OR and AND bit by bit |
| `Integers.ImmediateSums` | src/cpu.rs:651-670 | Encoded ADDI, SLTI and SLTIU on numbers for every 12-bit immediate |
| `Integers.ImmediateBits` | src/cpu.rs:671-673 | Encoded XORI, ORI and ANDI bit by bit |
| `Integers.ImmediateShifts` | src/cpu.rs:674-681 | Encoded SLLI, SRLI and SRAI on numbers |
| `Integers.Products` | src/cpu.rs:738-749 | Encoded MUL, MULH, MULHSU and MULHU: the words of the three 64-bit products |
| `Integers.Divisions` | src/cpu.rs:757-771 | Encoded DIVU and REMU, zero divisors included |
| `Integers.SignedDivisions` | src/cpu.rs:750-764 | Encoded DIV and REM, zero divisors and the overflow included |
| `Addressing.AuipcAdds` | src/cpu.rs:586-588 | AUIPC puts the pc plus the immediate, modulo 2^32, into rd; nothing else changes but the pc |
| `Addressing.AuipcAddiReachesAnyOffset` | src/cpu.rs:586-588 | AUIPC and ADDI form the pc plus any 32-bit offset |
| `Addressing.AuipcJalrReachesAnyOffset` | src/cpu.rs:593-597 | AUIPC and JALR jump to the pc plus any 32-bit offset with its lowest bit cleared and link the address after the pair |
| `Addressing.LuiLoads` | src/cpu.rs:583-585 | LUI loads its immediate |
| `Addressing.JalJumps` | src/cpu.rs:589-592 | JAL goes to the pc plus its offset modulo 2^32 and links the next address |
| `Addressing.JalrJumps` | src/cpu.rs:593-597 | JALR goes to the register plus its offset with the lowest bit cleared and links the next address |
| `Addressing.BranchJumps` | src/cpu.rs:598-618 | A branch goes to the pc plus its offset exactly if its condition holds on numbers, and on otherwise |
| `Legality.FaultsExactly` | src/cpu.rs:540-735 | Outside SYSTEM and float arithmetic the executor faults exactly on encodings that name no instruction, with the error of the source |
| `Legality.SystemFaultsExactly` | src/cpu.rs:1225-1276 | SYSTEM faults exactly on an ECALL with an unknown number that no custom handler answers |
| `Legality.SystemWithoutOperands` | src/cpu.rs:1235-1243 | EBREAK halts, and any other operand-free SYSTEM instruction but ECALL and MRET does nothing |
| `Legality.ArithmeticIsTheHosts` | src/cpu.rs:824-834 | Float arithmetic is the host's function of exactly the registers the encoding names, with its result in rd |
| `Devices.DeviceLoad` | src/cpu.rs:619-633 | A load in the device window is one device read of its width; rd gets the answer, extended, and no byte changes |
| `Devices.DeviceStore` | src/cpu.rs:636-650 | A store in the window is one device write of its width with the low bits of rs2, and no byte changes |
| `Devices.DeviceAmo` | src/cpu.rs:784-821 | An atomic in the window is its device read and then its device write, with the answer in rd |
| `Devices.DeviceFloatLoad` | src/cpu.rs:835-840 | FLW in the window |
| `Devices.DeviceFloatStore` | src/cpu.rs:852-856 | FSW in the window |
| `Devices.DeviceDoubleLoad` | src/cpu.rs:840-844 | FLD in the window is two word reads, the low word first |
| `Devices.DeviceDoubleStore` | src/cpu.rs:857-860 | FSD in the window is two word writes, the low word first |
| `Devices.ExtendedMeans` | src/cpu.rs:621-626 | Byte and halfword loads give the remainder, or the signed remainder |
| `Devices.WordIsLittleEndian` | src/memory.rs:25-31 | The value of a word from its bytes, least significant first |
| `Devices.HalfIsLittleEndian` | src/memory.rs:13-17 | The same for halfwords |
| `Devices.DoubleIsLittleEndian` | src/cpu.rs:857-860 | A stored double has its low word first |
| `Devices.WordIsFourBytes` | src/memory.rs:25-39 | A word access that starts below the window is the byte loop over four bytes, wherever it ends |
| `Devices.HalfIsTwoBytes` | src/memory.rs:13-23 | The same for halfwords |
| `Devices.BoxedWords` | src/cpu.rs:837-839 | A boxed single has its bits in the low word and ones above |
| `Devices.NanIsAboveInfinity` | src/cpu.rs:337-344 | The NaN test, sign aside, is being above infinity |
| `Coherence.StoreThenLoad` | src/cpu.rs:619-650 | A store then a same-width load from the same address yields the stored low bits, sign- or zero-extended, at any alignment; the load changes nothing else and no byte outside the range changes |
| `Coherence.AmoCoherent` | src/cpu.rs:784-821 | An atomic below the device window returns the old word, leaves the combined one for the next load, and changes no other byte |
| `Coherence.FloatStoreThenLoad` | src/cpu.rs:835-866 | FSW then FLW at one address gives the low word NaN-boxed, and no other byte changes |
| `Coherence.DoubleCoherent` | src/cpu.rs:835-866 | A double stored below the device window is in memory bit for bit, at any alignment |
| `Coherence.DoubleStoreThenLoad` | src/cpu.rs:835-866 | FSD then FLD restores the register if and only if it is not a NaN or is the canonical one; no other byte changes |
| `Coherence.BoxedIsLost` | src/cpu.rs:337-344 | Every NaN-boxed single is a NaN that a double load replaces |
| `Coherence.SpilledSingleIsLost` | src/cpu.rs:835-866 | A register holding any single, saved with FSD and restored with FLD, holds the canonical NaN |
| `Coherence.CompressedStoreThenLoad` | src/cpu.rs:1310-1340 | Store/load coherence for C.SW and C.LW, stack forms included |
| `Coherence.CompressedFloatStoreThenLoad` | src/cpu.rs:1317-1348 | The same for C.FSW and C.FLW, stack forms included: the low word comes back NaN-boxed |
| `Coherence.CompressedDoubleStoreThenLoad` | src/cpu.rs:1301-1332 | The same for C.FSD and C.FLD, stack forms included, with the condition for the register to survive |
| `Coherence.WordCoherent` | src/memory.rs:184-261 | A word written below the device window reads back at any alignment, and no other byte changes |
| `Coherence.HalfCoherent` | src/memory.rs:145-182 | The same for halfwords |
| `Syscalls.WriteCall` | src/syscall.rs:41-60 | ECALL with 64 or 4, a buffer anywhere: the host gets the bytes in ordinary memory on the stream in a0, the devices under the rest are asked in order, and a0 returns the count asked for |
| `Syscalls.WriteEmitsMemory` | src/syscall.rs:41-60 | The count returned is the count written exactly up to 16 MiB |
| `Syscalls.ReadCall` | src/syscall.rs:62-77 | ECALL with 63 or 3, a buffer anywhere: the delivered bytes are in its ordinary memory, the devices are told the others in order, a0 is how many there were, and no other byte changes |
| `Syscalls.EchoOfTwoCalls` | src/syscall.rs:41-77 | Two ECALLs that read and then write what was read send the host as many bytes, the same wherever the buffer is ordinary memory, and all of them with no device call if all of it is |
| `Syscalls.ExitHalts` | src/syscall.rs:34-39 | ECALL with 93, 10 or 1 halts with the code in a0 |
| `Syscalls.BrkMoves` | src/syscall.rs:79-86 | ECALL with 214 or 45 moves the break to a0 exactly if that is nonzero and in [initial break, MMIO base), and returns the break |
| `Syscalls.StubsReturnZero` | src/syscall.rs:88-92 | ECALL with 57, 62 or 80 returns zero and does nothing |
| `Syscalls.UnknownFaults` | src/syscall.rs:94-101 | Any other number faults with the arguments and changes nothing |
| `Syscalls.CustomAnswer` | src/syscall.rs:22-30 | A nonzero answer of the custom handler is a0, and nothing else happens |
| `Disassembler.DisassemblyIsFaithful` | src/disasm.rs:351-568 | The rendered 16-bit instruction, read as plain assembly, is what the executor does, for every halfword and machine |
| `Disassembler.ReservedExactlyWhenRejected` | src/disasm.rs:351-541 | A halfword is rendered reserved exactly when the executor rejects it, which does not depend on the state |
| `Disassembler.JumpGoesToTarget` | src/disasm.rs:158-167 | A printed 32-bit jump goes to the printed target and links the next address |
| `Disassembler.BranchGoesToTarget` | src/disasm.rs:180-228 | A printed 32-bit branch goes to the printed target exactly when its condition holds; an unknown one faults |
| `PagedMemory.Memory.ReadU8` | src/memory.rs:125-134 | A byte read is the flat one, device call included |
| `PagedMemory.Memory.WriteU8` | src/memory.rs:136-143 | A byte write is the flat one |
| `PagedMemory.Memory.ReadU16` | src/memory.rs:145-161 | A halfword read starting below the device window is two byte reads, at every alignment and page edge |
| `PagedMemory.Memory.WriteU16` | src/memory.rs:163-182 | A halfword write starting below the device window is two byte writes |
| `PagedMemory.Memory.ReadU32` | src/memory.rs:184-208 | A word read starting below the device window is four byte reads |
| `PagedMemory.Memory.WriteU32` | src/memory.rs:239-261 | A word write starting below the device window is four byte writes, and one device call inside it (`Devices.DeviceStore`) |
| `PagedMemory.Memory.FetchWindow` | src/memory.rs:210-237 | The low half is the halfword at the address; a wide window is the whole word and makes no device call |
| `PagedMemory.Memory.FetchInstruction` | src/cpu.rs:403-417 | Window and conditional word read give the instruction, and the device reads, of "classify with a halfword read, decode with a word read", at every address |
| `PagedMemory.Memory.ReadBytes` | src/memory.rs:263-298 | The page-coalesced copy is the trait's byte loop for every address and length, wrap-around and order of device calls included |
| `PagedMemory.Memory.WriteBytes` | src/memory.rs:300-328 | The same for writes |
| `PagedMemory.Memory.SetBrk` | src/memory.rs:334-338 | The break moves only inside [initial break, MMIO base) |
| `FlatMemory.LoadsBelowMmio` | src/memory.rs:41-47 | The byte loop over ordinary memory collects its contents without a device call |
| `FlatMemory.StoresBelowMmio` | src/memory.rs:49-53 | The byte loop writing ordinary memory lays the data over it without a device call |
| `FlatMemory.LoadsAnywhere` | src/memory.rs:41-47 | The byte loop anywhere changes nothing but the trace, which gets its device reads in order |
| `FlatMemory.LoadedAt` | src/memory.rs:41-47 | And finds every ordinary byte, wrap-around included |
| `FlatMemory.StoresAnywhere` | src/memory.rs:49-53 | The writing loop anywhere leaves its device writes in order |
| `FlatMemory.StoredAt` | src/memory.rs:49-53 | And puts its data into every ordinary byte of its range and into no other |
| `Cpu.Cpu.constructor` | src/cpu.rs:213-232 | The initial registers, flags and settings |
| `Cpu.Cpu.ExecuteInst32` | src/cpu.rs:540-573 | The in-place 32-bit executor is the function `Execute32` of the old state |
| `Cpu.Cpu.ExecuteInst16` | src/cpu.rs:1279-1623 | The in-place 16-bit executor is `Execute16` of the old state |
| `Cpu.Cpu.HandleEcall` | src/syscall.rs:15-102 | System calls: exit, brk, read, write, stubs, custom and unknown ones |
| `Cpu.Cpu.HandleInterrupt` | src/cpu.rs:519-537 | Interrupt entry is `TakeInterrupt` of the old state |
| `Cpu.Cpu.Mret` | src/cpu.rs:1243-1257 | MRET is `ExecMret` of the old state |
| `Cpu.Cpu.StepInstruction` | src/cpu.rs:235-293 | The in-place debugger step is the function the theorems speak of |
| `Cpu.Cpu.RunSlice` | src/cpu.rs:352-468 | The nested in-place loops terminate and are `RunSlice` of the old state, poll for poll |
| `Debugger.RunUntilBreakpoint` | src/lib.rs:310-331 | On any host, if full slices stop within some number of slices, the loop ends in exactly that state and reports a breakpoint exactly when the last slice stopped on one |
| `Debugger.ContinuedEnds` | src/lib.rs:310-331 | On any host such a run replays from its log and ends at an active breakpoint or halted |
| `Debugger.ContinuingIsStepping` | src/lib.rs:310-331 | On a quiet host, if stepping stops, continuing stops in the same run |
| `Debugger.Run` | src/cpu.rs:472-485 | On any host, if full slices reach a halt or trap, `run` ends in exactly that state, halted, with a log that continues the old one, and returns the exit code |
| `Debugger.RunIgnoresBreakpoints` | src/cpu.rs:472-485 | On a quiet host `run` ends in the state of a run without breakpoints, within twice as many slices as that has steps |
| `Debugger.RunTo` | src/lib.rs:285-293 | A temporary breakpoint leaves the user's breakpoints as they were, and a reported stop is at the target or at one of them |
| `Debugger.StepOut` | src/lib.rs:299-308 | Step out continues to the address in ra and restores the breakpoints |
| `Debugger.StepOver` | src/lib.rs:280-297 | Step over continues past a call to the address after it and takes one step otherwise |
| `Debugger.CallsOfHalfword` | src/lib.rs:370-381 | A compressed word is taken for a call exactly when it is C.JAL, C.JALR, C.ADD or C.EBREAK |
| `Debugger.CallsRecognised` | src/lib.rs:370-381 | So the test is right if and only if the halfword is neither C.ADD nor C.EBREAK |
| `Debugger.AddTakenForCall` | src/lib.rs:377-379 | C.ADD x1, x2 is taken for a call |
| `Debugger.CallsOfWord` | src/lib.rs:382-387 | A 32-bit word is taken for a call exactly when it is JAL or JALR linking x1 or x5 |
| `Debugger.CallLinksAfter` | src/lib.rs:285-288 | Where step over stops is what the call puts into its link register |
| `Debugger.CompressedCallLinksAfter` | src/lib.rs:285-288 | The same for C.JAL and C.JALR |
| `Loader.LoadSections` | src/lib.rs:157-192 | The loader loop computes `Layout` and leaves memory as `Image` of the headers cast to `usize`, whatever the headers |
| `Loader.CastKeeps` | src/lib.rs:161-163 | Headers whose sizes and offsets fit `usize` are used as they are |
| `Loader.PlacementIsSound` | src/lib.rs:167-181 | Sections of a relocatable object are aligned, in order, disjoint and below the device window |
| `Loader.ImageAt` | src/lib.rs:183-188 | Every byte of a placed section is its file byte, or what memory held if it has none |
| `Loader.ImageBelow` | src/lib.rs:157-192 | Bytes below the first section keep their value and no device is called |
| `Loader.LoadingIsFaithful` | src/lib.rs:157-192 | In zeroed memory every section with file bytes reads back exactly them and every NOBITS section reads as zero; placements are aligned and disjoint |
| `Loader.PlacementIsTight` | src/lib.rs:169-180 | A section without an address starts at the first multiple of its alignment, four if it names none, and the next is placed from its end |
| `Loader.FixedLayout` | src/lib.rs:167-168 | A loaded section with an address stays there |
| `Loader.FixedByte` | src/lib.rs:183-188 | A byte that one section of a linked object alone covers is that section's byte in the file |
| `Loader.FixedOutside` | src/lib.rs:157-192 | A byte that none covers keeps its value |
| `Guest.LiLoadsAnyValue` | benches/throughput_benchmarks.rs:109-116 | The `li` pair loads any 32-bit value into any register but x0 and touches nothing else |
| `Guest.DecodeCAddi` | benches/throughput_benchmarks.rs:127-131 | The `c.addi` encoder is decoded to its register and to every six-bit immediate |
| `Guest.StreamHolds` | benches/throughput_benchmarks.rs:143-146 | A halfword stream in memory holds every instruction of either width at its offset |
| `Guest.Program.Load` | benches/throughput_benchmarks.rs:171-175 | Loading is the halfword writes in order, wherever they lead |
| `Guest.StoredHalves` | benches/throughput_benchmarks.rs:171-175 | Below the device window the stream is then in memory and nothing else has changed |
| `Guest.HaltingRun` | benches/throughput_benchmarks.rs:267-286 | A run of exactly so many instructions that ends in a halt is what a slice completes, or spends a smaller budget on |
| `AluLoop.AllPasses` | benches/throughput_benchmarks.rs:193-200 | A counter of p makes p passes of five instructions, with the exact registers left behind |
| `AluLoop.AluLoopCount` | benches/throughput_benchmarks.rs:189-207 | For every `i32` count and every budget a slice on `alu_loop` halts with code zero after exactly 2 + 5 passes + 3 instructions if they fit and otherwise spends the budget |
| `AluLoop.DeclaredExactlyWhenPositive` | benches/throughput_benchmarks.rs:202-206 | The declared count is that of a completed run if and only if the count is positive and fits the budget |
| `AluLoop.ContinueToExit` | benches/throughput_benchmarks.rs:304-322 | With a breakpoint on the exit sequence the slice stops there after the whole loop |
| `AluLoop.Build` | benches/throughput_benchmarks.rs:189-207 | The pushes build the program, branch offset included, and the declared count |
| `AluLoop.RunWorkload` | benches/throughput_benchmarks.rs:267-286 | Fresh CPU and memory, program loaded, one slice: the count above |
| `MixedLoop.MixedLoopCount` | benches/throughput_benchmarks.rs:242-262 | The same for `mixed_loop` through both executors: 2 + 6 passes + 3 instructions, x6 raised by the passes, memory untouched |
| `MixedLoop.DeclaredExactlyWhenPositive` | benches/throughput_benchmarks.rs:256-261 | The declared count of `mixed_loop`, if and only if positive and within the budget |
| `MixedLoop.PassedFacts` | benches/throughput_benchmarks.rs:246-253 | What p passes leave: only registers change, x6 counts up and x8 down |
| `MixedLoop.RunWorkload` | benches/throughput_benchmarks.rs:267-286 | Fresh CPU and memory, `mixed_loop` loaded, one slice |
| `MemcpyLoop.MemcpyLoopCount` | benches/throughput_benchmarks.rs:210-238 | For every `i32` count and `u32` budget a slice on `memcpy_loop` halts after exactly 8 + 8 passes + 3 instructions with `Copied` in memory and nothing else changed, or spends the budget |
| `MemcpyLoop.DeclaredExactlyWhenPositive` | benches/throughput_benchmarks.rs:233-237 | The declared count of `memcpy_loop`, if and only if positive and within the budget |
| `MemcpyLoop.CopiedWord` | benches/throughput_benchmarks.rs:221-231 | Word i of the destination holds the word the source had at i modulo 0x40000, for any number of passes |
| `MemcpyLoop.CopiedOutside` | benches/throughput_benchmarks.rs:221-231 | Bytes outside the copied range keep their value |
| `MemcpyLoop.CopiesExactly` | benches/throughput_benchmarks.rs:221-231 | For a given memory the loop copies if and only if the source repeats itself after 0x40000 words |
| `MemcpyLoop.CopiesUpToTheGap` | benches/throughput_benchmarks.rs:25-26 | It copies every memory if and only if there are at most 0x40000 words |
| `MemcpyLoop.RunWorkload` | benches/throughput_benchmarks.rs:267-286 | Fresh CPU and memory, `memcpy_loop` loaded, one slice |

## Left out

- Floating-point arithmetic, comparison, conversion and classification: one host function of the operand bits, because it rests on Rust's IEEE operations; float loads, stores, boxing and NaN canonicalisation of double loads are modelled.
- `fcsr`: no instruction reads or writes that field.
- Printed diagnostics and the text of errors, mnemonics and register names; the disassembler renders into a datatype, and of its 32-bit part only jumps and branches.
- ELF parsing, program headers, symbols and the entry point: the loader takes a parsed section list.
- Overflow checks of debug builds: the loader's address arithmetic, the second word of FLD and FSD and the address after a call wrap.
- A host that answers a stdin read with more bytes than asked for, or changes its poll answers with the time of the poll rather than with what was asked before.
- Step counters and the executed count are unbounded instead of 64-bit.
- Snapshots, the wasm and serde glue and the command line.
- LR/SC reservations: the source has none, so SC.W always succeeds.
- Debugger.Run: says nothing of a run that never stops; likewise RunUntilBreakpoint, RunTo, StepOut and StepOver, whose ghost parameter is a number of slices within which the run stops.
- Loader.LoadSections: a section whose end overflows `usize`, where the source panics.
- Slicing.SliceIsStepping: for quiet hosts, since single stepping never polls for interrupts; the any-host results are SlicesComposeOnPollBoundary and the replay theorems.
