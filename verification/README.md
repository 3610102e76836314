# Verified model of the RISC-V debug module and its transports

This project models the debug module for RISC-V harts (execution based, as in section A.2 of
"RISC-V External Debug Support" 0.13.2), the serial (UART) transport, the JTAG transport and the
system bus engine, and proves what they promise. `dafny verify dfyconfig.toml` checks everything.

Configuration: XLEN = 32, BusWidth = 32, two data registers, eight program buffer words; the debug
module at the zero page (one scratch register per hart) or at any other 4 KiB page (two); 1 to 1024
harts. Registers are numbers below 2^32, vectors are sequences of bits, lowest first.

## How it is built

The clocked modules are classes with their registers as fields and a `Tick` method. The method is proved
equal to a next-state function over the register values, and the promises are proved about runs of
these functions: lemmas over all input sequences, all delays and all interleavings. Register addresses,
bit positions, op codes and error codes are stated once more as plain numbers, so that none of them rests on
the model's own names (`CommandFormat`, `RegisterAccess`, `MemoryMap`, `JtagScans`, and the sections "What
the debugger's words mean").

| file | content |
|---|---|
| `Machine.dfy` | words, the RV32 encoders of the debug package and a decoder |
| `DebugRom.dfy` | the park loop listing and both ROM images, word by word |
| `Hart.dfy`, `HartCore.dfy` | a minimal hart in debug mode: as a function and as a class |
| `AbstractCmd.dfy`, `CommandFormat.dfy` | the compiler from command words to ten instruction words; the word's fields and what each register number compiles to |
| `DmMem.dfy`, `MemoryMap.dfy` | the debug memory: controller, flags; its words and stores by address |
| `ParkLoop.dfy` | one step of a hart in the ROM, and where the program's s0 and a0 are meanwhile |
| `CommandRun.dfy`, `CommandRefinement.dfy` | a generated program from GOING to HALTED against plain register access |
| `DmCsrs.dfy`, `HaltSum.dfy` | command-side registers; halt summaries |
| `DebugSystem.dfy` | module and harts on one clock, the invariant |
| `DebugRuns.dfy`, `DebugProgress.dfy`, `ResumeHandshake.dfy` | whole runs: refinement, safety, progress, resume requests |
| `HaltResume.dfy` | a halt and the resume that ends it, seen from the program |
| `CommandCompletes.dfy`, `RegisterAccess.dfy` | from the write of a command to the idle controller; the register that the number names; the recorded errors |
| `Fifo.dfy`, `Escape.dfy`, `Serdes.dfy` | ring buffer, byte stuffing, serializer and deserializer |
| `UartFrame.dfy`, `UartSampling.dfy`, `UartLoopback.dfy`, `UartDrift.dfy` | line transmitter, receiver, both over a line, and the exact drift bound |
| `TxPath.dfy`, `UartTap.dfy`, `DmiBridge.dfy`, `WritePath.dfy` | transmit path, register side, bridge, end-to-end write |
| `Sba.dfy` | system bus access as a window on memory |
| `Jtag.dfy`, `JtagScans.dfy` | TAP controller and access engine; whole transactions from the pads |

In `DebugSystem.dfy` one clock carries at most one hart instruction, because the debug memory has one
port; any hart may be the one, and instruction fetches and other reads may fill the remaining cycles.
The environment is that of section 3.6 of "RISC-V External Debug Support" 0.13.2: the debugger does not
write dmcontrol while a command is running or about to run, nor in the clock in which an idle controller
takes a request up; the module stays active, harts are not reset, and commands do not execute the program
buffer. Harts outside debug mode run freely and may change any of their registers, but make no access of
their own to the debug memory. `Past` records, per hart, the registers at debug entry and the commands
served since, so that properties of whole runs can be stated.

## What the proofs found

Each is stated for all inputs. Where the code misses a promise the condition is exact, except for the flag
window and the stalled request, which are shown in one direction:

- A command that writes CSR dscratch0 (or dscratch1 away from the zero page) changes s0 (a0) of the
  program instead: `CommandRuns.ProgramIsPlainAccess`.
- Selecting a hart and asking it to resume in one dmcontrol write is lost if that hart still shows the
  acknowledgement of an earlier resume, because the acknowledgement of the old selection is cleared:
  `ResumeHandshake.ResumeHeardExactly`, with a concrete lost request in `ResumeHandshake.RequestLost`.
- A register transfer with aarpostincrement is accepted and runs without the increment:
  `AbstractCommands.PostIncrementIgnored`.
- A command with neither transfer nor postexec executes the illegal word and records an exception:
  `CommandRefinement.ProgramEnds`.
- A command that is written in the clock in which a resume request is taken up is dropped: it does not run,
  and no error is recorded: `RegisterAccess.CommandLostAtResume`.
- The comment that no command starts before cmderr is cleared does not describe the code:
  `ControlRegs.ErrorDoesNotBlock`.
- The flag window ends at hart 1023; the byte hart 1024 would poll is a ROM byte with the go bit set:
  `DebugMemory.FlagWindowEndsAt1024`.
- The truncated comparisons of the halt summaries read zero above 2^20 - 32, 2^20 - 1024 and 31 * 2^15
  harts: `HaltSummary.HaltSums`, `HaltSummary.CountLimits`; summary 3 reads one word too many when the
  number of harts is a multiple of 2^15: `HaltSummary.LastWord`.
- The ring buffer loses a byte that is written in the cycle of a read while empty:
  `RingBuffer.Fifo.Tick`; the receiver never reads then: `EscapeCoding.ReceiverKeepsBufferExact`.
- A second payload under one write command is decided by the word before it:
  `WritePath.RepeatedPayload`.
- The bridge would repeat a request to a module that stalls; the response queue never does:
  `DmiBridge.StallRepeats`, `DmiBridge.StaysInStep`.
- A deserializer as wide as its counter's range never completes a word that ends in its last byte; all
  other words complete: `Serdes.FullVectorWraps`, `Serdes.CompletesExactly`, `Serdes.WrapsOnlyWhenFull`.
- With S cycles a bit and a correction every R bits, the line is faithful to every sequence of bytes if and
  only if floor(10 / R) + 1 <= ceil(S / 2), one more being allowed for S = 10: `UartDrift.FaithfulInNumbers`.
  With remainder 0 the correction counter starts at 3, so R is 4: `UartSampling.CorrectionIsCounter`. The
  transmitter's remainder parameter equals its interval exactly as long as CLK_RATE * 10 fits a signed
  32-bit integer, that is up to 214,748,364 Hz: `UartFrame.SenderRemainder`.
- The JTAG busy error is raised by any register update during an access and any capture during a read,
  whichever register is selected: `JtagTransport.ErrorRaisedExactly`.

## Model

| member | source | states |
|---|---|---|
| `Riscv.DecodeEncodedLoad` | src/dm_pkg.sv:361-367 | what the load encoder emits decodes back to that load, for every size, register and offset in use |
| `Riscv.DecodeEncodedStore` | src/dm_pkg.sv:375-381 | the same for the split-immediate store layout |
| `Riscv.DecodeEncodedFloat` | src/dm_pkg.sv:383-397 | float accesses decode back for the word size; every other size field is an illegal instruction |
| `Riscv.DecodeEncodedCsr` | src/dm_pkg.sv:399-409 | csrw and csrr decode back for every CSR number and register |
| `Riscv.DecodeEncodedShift` | src/dm_pkg.sv:347-359 | slli and srli decode back for every shift amount of a 32-bit hart |
| `Riscv.DecodeEncodedJal` | src/dm_pkg.sv:327-331 | every even 21-bit signed offset survives the scattered jal layout |
| `Riscv.DecodeFixedWords` | src/dm_pkg.sv:420-434 | ebreak, nop, the illegal word and auipc with zero immediate decode to themselves |
| `DebugRom.ImageIsListing` | debug_rom/debug_rom.sv:24-61 | for both variants, each word of the ROM image at a program point decodes to the instruction the assembly has there, branch targets included |
| `DebugRom.LocAtAddressOf` | debug_rom/debug_rom.S:27-109 | program points have distinct addresses, in listing order |
| `HartCore.Core.Step` | debug_rom/debug_rom.S:36-109 | one instruction executed in place on the registers equals the step function, including the bus access it makes |
| `HartCore.Core.CsrTransfer` | debug_rom/debug_rom.S:40-42 | a CSR instruction traps before any effect, otherwise swaps in place |
| `AbstractCommands.CommandWordsDecode` | src/dm_mem.sv:331-465 | for every command word, supported or not, each of the ten generated words decodes to the instruction of the slot program |
| `AbstractCommands.PostIncrementIgnored` | src/dm_mem.sv:356-446 | a transfer with aarpostincrement is accepted and compiles to the program of the one without |
| `CommandFormat.FieldsFound` | src/dm_pkg.sv:172-191 | every field of a command word, put at its bit position, is found there by the compiler; every word is such a composition |
| `CommandFormat.RefusedExactly` | src/dm_mem.sv:331-465 | refused are exactly other command types, sizes above 32 bits, transfers with a number from 0x4000 on, and post-increment without a transfer |
| `CommandFormat.IntegerCommand` | src/dm_mem.sv:356-427 | numbers 0x1000 to 0x101f compile to a load or store of that integer register at 0x380, a0 through s0 and dscratch1 where it carries the base; bits 13 and 11 to 6 are ignored |
| `CommandFormat.FloatCommand` | src/dm_mem.sv:378-427 | numbers 0x1020 to 0x103f compile to a float load or store of that register, other sizes than words to an illegal instruction |
| `CommandFormat.CsrCommand` | src/dm_mem.sv:386-439 | numbers below 0x1000 compile to an exchange of that CSR through s0 |
| `CommandFormat.OtherCommands` | src/dm_mem.sv:331-465 | a refused command is an ebreak, one that asks for nothing the illegal word |
| `DebugMemory.DmMem.ReadWriteLogic` | src/dm_mem.sv:219-329 | halted and resuming vectors, row register and bus events of a cycle |
| `DebugMemory.DmMem.HartControl` | src/dm_mem.sv:136-204 | next controller state and error report, with their precedences |
| `DebugMemory.DmMem.Tick` | src/dm_mem.sv:499-521 | one clock edge of the debug memory, whole new state and outputs |
| `DebugMemory.WriteLanes` | src/dm_mem.sv:259-266 | the byte-enable loop merges exactly the enabled lanes |
| `DebugMemory.ReadAnswered` | src/dm_mem.sv:206-214 | a read is answered one cycle later with the word its address names, ROM or variable, by registered select bits |
| `DebugMemory.ReadSlot` | src/dm_mem.sv:309-313 | program slot i is served at its address |
| `DebugMemory.ReadRom` | src/dm_mem.sv:467-497 | ROM addresses serve the ROM image |
| `DebugMemory.FlagByte` | src/dm_mem.sv:315-322 | a hart that polls its own byte sees the flag exactly if it is the selected one, else zero |
| `DebugMemory.FlagWindowEndsAt1024` | src/dm_mem.sv:315-322 | hart 1024 would see the go bit of a ROM byte |
| `DebugMemory.AlignedIsLeast` | src/dm_mem.sv:60-63 | hart numbers are cut to the least power of two, from two on, that holds all harts |
| `MemoryMap.JumpWord` | src/dm_mem.sv:274-292 | at 0x300 a hart reads a jump to the generated program, to the program buffer, or to the resume vector, as the command and the request ask |
| `MemoryMap.VariableWords` | src/dm_mem.sv:294-313 | program, program buffer and data registers are read word by word at 0x338, 0x360 and 0x380 |
| `MemoryMap.Stores` | src/dm_mem.sv:239-270 | what a store of a hart does, by its address |
| `ParkLoop.FetchRom` | debug_rom/debug_rom.S:27-109 | a hart at a program point fetches the instruction listed there |
| `ParkLoop.AccessInRom` | debug_rom/debug_rom.S:51-109 | with registers as the loop keeps them, the ROM code's bus accesses are exactly the four reports and the two polls, at both bases |
| `ParkLoop.StepInRom` | debug_rom/debug_rom.S:36-109 | every step inside the ROM leads to the next listed point and keeps the program's registers recoverable: live, or in dscratch0/1 |
| `ParkLoop.StepExits` | debug_rom/debug_rom.S:98-109 | at the jump into the program and at dret all registers are in place |
| `CommandRuns.ProgramIsPlainAccess` | src/dm_mem.sv:385-395 | the generated program is the plain interface, except that a write to a scratch CSR in use hits s0 or a0: exactly when that differs |
| `CommandRuns.FailedAccessIsAtomic` | src/dm_mem.sv:331-465 | an access that traps changes neither registers nor data |
| `CommandRuns.MergeIsOverlay` | src/dm_mem.sv:259-266 | byte enables keep the bytes of the data register that the access size leaves out |
| `CommandRuns.RomEnds` | debug_rom/debug_rom.S:36-90 | from entry or exception the hart reaches its HALTED report within a fixed number of steps, registers kept, an exception reported exactly on the exception path |
| `CommandRuns.EpilogueEnds` | src/dm_mem.sv:346-347 | the last two slots restore a0 and break back into the loop |
| `CommandRuns.TrapEnds` | debug_rom/debug_rom.S:71-89 | a trap from any slot ends in the loop with the registers before the command and an exception reported |
| `CommandRefinement.GprWriteEnds` | src/dm_mem.sv:376-384 | writing a GPR: exactly that register changes, to the sign-extended data of the access size |
| `CommandRefinement.GprReadEnds` | src/dm_mem.sv:419-427 | reading a GPR: exactly the low bytes of data0 change |
| `CommandRefinement.FprEnds` | src/dm_mem.sv:377-381 | moving a floating-point register, both directions |
| `CommandRefinement.FprTraps` | src/dm_mem.sv:377-381 | without the unit, or for a size other than a word, the move raises an exception and changes nothing |
| `CommandRefinement.CsrWriteEnds` | src/dm_mem.sv:386-396 | writing a CSR through s0: exactly the CSR changes, or the write traps and nothing does; a0 goes through dscratch1 |
| `CommandRefinement.CsrReadEnds` | src/dm_mem.sv:429-439 | reading a CSR or the hart id through s0, with the same alternatives |
| `CommandRefinement.TransferEnds` | src/dm_mem.sv:356-439 | every transfer from its fifth slot on ends as the access says |
| `CommandRefinement.ProgramEnds` | src/dm_mem.sv:331-465 | every command without program buffer execution from its first slot: transfers, refused commands, and the illegal word of a command without transfer |
| `CommandRefinement.WhereToJumps` | src/dm_mem.sv:274-292 | while busy the jump target word sends the hart to the first slot |
| `CommandRefinement.CommandRefinesAccess` | src/dm_mem.sv:331-465 | from the GOING report to the next HALTED report, within 28 steps, exactly the access takes place, for both base addresses |
| `ControlRegs.DmCsrs.Serve` | src/dm_csrs.sv:292-431 | the command-side effect of a DMI request on every register, and whether it starts a command |
| `ControlRegs.DmCsrs.Tick` | src/dm_csrs.sv:577-634 | one clock edge: requests, then hart error, hart data, resume acknowledgement; synchronous reset while inactive |
| `ControlRegs.BusyProtects` | src/dm_csrs.sv:358-431 | while busy no request changes command, program buffer or abstractauto, and data changes only through the hart |
| `ControlRegs.BusyErrorExactly` | src/dm_csrs.sv:292-431 | in a clean cmderr the busy error appears exactly for a refused request in a cycle without hart error |
| `ControlRegs.ErrorIsSticky` | src/dm_csrs.sv:384-396 | a recorded error is not overwritten by refused requests and only shrinks by an explicit clear |
| `ControlRegs.WriteOneClears` | src/dm_csrs.sv:389-392 | writing cmderr clears exactly the bits written as ones |
| `ControlRegs.ErrorDoesNotBlock` | src/dm_csrs.sv:397-402 | a command written with a nonzero cmderr starts all the same |
| `ControlRegs.AutoExecutesExactly` | src/dm_csrs.sv:408-431 | after a write of abstractauto the next access to a data or program buffer register starts the command exactly if its bit was written as one |
| `ControlRegs.WriteReadsBack` | src/dm_csrs.sv:361-373 | data and program buffer registers read back what was written |
| `ControlRegs.StatusShows` | src/dm_csrs.sv:259-264 | abstractcs shows busy and cmderr in their fields, and the two counts |
| `ControlRegs.ControlRoundTrip` | src/dm_csrs.sv:374-380 | the split hart selection and the request bits of dmcontrol read back as written |
| `ControlRegs.ControlWritten` | src/dm_csrs.sv:374-383 | a write of 0x10 sets each control field, and each of the twenty selection bits, from its bit of the word |
| `ControlRegs.RefusedWhileBusy` | src/dm_csrs.sv:292-430 | the requests that are refused while a command runs, by address, record error 1, and no others do |
| `ControlRegs.WordsWritten` | src/dm_csrs.sv:361-430 | accepted writes land in the data register, program buffer word or command of their address and nowhere else |
| `ControlRegs.ErrorWritten` | src/dm_csrs.sv:384-396 | ones in bits 10 to 8 of a write of 0x16 clear those bits of the error |
| `ControlRegs.AutoByAddress` | src/dm_csrs.sv:408-430 | bits of a write of 0x18 arm the accesses to the addresses they stand for |
| `HaltSummary.Reduce` | src/dm_csrs.sv:121-160 | one reduction loop: bit k tells whether its group of harts has a halted one |
| `HaltSummary.Pick` | src/dm_csrs.sv:114-116 | the selected word, or zero when the truncated comparison fails |
| `HaltSummary.HaltSums` | src/dm_csrs.sv:97-151 | summaries 0 to 2 around any selection equal their flat definitions for every hart count the comparisons can represent, and are zero beyond |
| `HaltSummary.HaltSum3` | src/dm_csrs.sv:153-160 | summary 3 equals its flat definition unless the hart count is a multiple of 2^15 |
| `HaltSummary.CountLimits` | src/dm_csrs.sv:114-150 | the largest hart counts the three comparisons work for |
| `HaltSummary.LastWord` | src/dm_csrs.sv:156-158 | the last loop has one iteration too many exactly for multiples of 2^15 |
| `DebugSystem.ReadsAgree` | src/dm_mem.sv:271-325 | the debug memory serves a read from the view the hart's step is computed on |
| `DebugSystem.ReportsAreGenuine` | src/dm_mem.sv:240-268 | in every reachable state each report on the bus comes from the hart, and the program point, it should come from |
| `DebugSystem.CommandKept` | src/dm_csrs.sv:293-489 | every busy cycle keeps command and program buffer, merges hart stores only, and records an exception over anything else |
| `DebugSystem.SelectionKept` | src/dm_csrs.sv:374-380 | the selection holds while a command runs or is about to |
| `DebugSystem.FlagsKept` | src/dm_mem.sv:144-191 | raised flags stay up until answered; halted bits follow the reports |
| `DebugSystem.GoingStep` | src/dm_mem.sv:163-171 | the GOING report hands the hart to the command it was started for |
| `DebugSystem.GoingRecorded` | src/dm_mem.sv:163-171 | the access it promises is the one of the command and data at that moment |
| `DebugSystem.ResumingStep` | src/dm_mem.sv:250-255 | the RESUMING report: the hart leaves, and is no longer taken for halted |
| `DebugSystem.ProgramMoves` | src/dm_mem.sv:181-188 | a step inside the program, seen by controller and registers, keeps the promise |
| `DebugSystem.StepKeepsInvariant` | src/dm_mem.sv:136-329 | the joint invariant of controller, registers and any number of harts survives every legal clock edge |
| `DebugSystem.IndexOfHart` | src/dm_mem.sv:99-102 | truncating hart numbers is invisible for existing harts |
| `DebugRuns.RunsReach` | src/dm_mem.sv:136-329 | the invariant and the record hold over any number of cycles and any interleaving |
| `DebugRuns.DretRestores` | debug_rom/debug_rom.S:100-109 | whole-run refinement: at dret the registers are those at debug entry with the served commands applied in order, s0 and a0 included |
| `HaltResume.HaltAndResume` | debug_rom/debug_rom.S:36-109 | from a halt to the dret that ends it: the program finds its registers with the served commands applied and goes on at dpc; without commands nothing has changed and it goes on where it was stopped |
| `DebugRuns.ReplayIsPlain` | src/dm_mem.sv:331-465 | without commands on scratch CSRs in use that record is a sequence of plain register accesses |
| `DebugRuns.HartsAreTracked` | src/dm_mem.sv:239-258 | a hart taken for halted is in debug mode and has not reported RESUMING |
| `DebugRuns.OneFlagRaised` | src/dm_mem.sv:315-322 | in every reachable state only the selected hart's flag byte is nonzero |
| `DebugRuns.ServiceRun` | src/dm_mem.sv:181-188 | a command runs undisturbed from GOING to HALTED whatever other harts and the debugger do |
| `DebugRuns.CommandServed` | src/dm_mem.sv:136-204 | from the GOING report on: when the controller is idle again the hart is in debug mode outside any command and the registers read off it, s0 and a0 included, and data0 are exactly those the access gives; cmderr shows an exception exactly if it failed |
| `DebugRuns.FailedCommandIsAtomic` | debug_rom/debug_rom.S:71-89 | a command that traps leaves every register of the hart, s0 and a0 included, and the data register as they were, records the exception, and the controller is idle with the hart in debug mode |
| `DebugRuns.BusyRunKeepsProgram` | src/dm_csrs.sv:292-489 | over a whole busy period no DMI traffic changes command or program buffer |
| `DebugRuns.ExceptionsAreOwn` | src/dm_csrs.sv:481-484 | during a command cmderr changes only by its own exception or to the busy error |
| `DebugProgress.ExecutingIsServing` | src/dm_mem.sv:163-188 | each clock the executing state is what the bus reports say |
| `DebugProgress.RunsAreSafe` | src/dm_mem.sv:136-329 | safety of every run: halted harts are in debug mode, at most one hart is outside the park loop, exactly between its GOING and its next HALTED report |
| `DebugProgress.OwnStepAdvances` | debug_rom/debug_rom.S:51-109 | every step of the selected hart decreases the measure |
| `DebugProgress.OthersDoNotDelay` | src/dm_mem.sv:144-191 | nothing else increases it |
| `DebugProgress.RemainingBound` | debug_rom/debug_rom.S:51-109 | the measure is at most 44 from the go flag and 22 from the resume flag, and zero only when idle |
| `DebugProgress.ReachesIdle` | src/dm_mem.sv:144-191 | the controller is idle again within that many steps of the selected hart, however the rest interleaves |
| `CommandCompletes.GoServed` | src/dm_mem.sv:144-191 | from the go flag on: at the first idle state the access has taken place on the registers of the hart and the data register, as the plain interface says unless a borrowed scratch CSR is addressed |
| `CommandCompletes.CommandRaisesGo` | src/dm_csrs.sv:397-402 | a supported command written with the selected hart halted and nothing pending raises the go flag two clocks later, with the registers and data of the moment of the write |
| `CommandCompletes.CommandCompleted` | src/dm_mem.sv:136-204 | from the COMMAND write to the idle controller: reached within 44 steps of the hart under any interleaving, and then exactly the access has happened on the registers and data at the write |
| `RegisterAccess.IntegerRegisterAccess` | src/dm_mem.sv:356-427 | from the write of the command word to the idle controller, register r of number 0x1000 + r is written sign-extended or read into the low bytes of data0, and nothing else changes |
| `RegisterAccess.FloatRegisterAccess` | src/dm_mem.sv:378-427 | the same for float register r of number 0x1020 + r as a word; else error 3 and no change |
| `RegisterAccess.CsrAccessByNumber` | src/dm_mem.sv:386-439 | the same for the CSR of that number; absent or read-only ones give error 3 and no change |
| `RegisterAccess.ReportedError` | src/dm_mem.sv:146-204 | the code stored for every command and state: 3 for an exception, else 2 if refused, else 4 if the idle controller finds the hart not halted |
| `RegisterAccess.CommandError` | src/dm_mem.sv:146-204 | in the clock after an accepted command write cmderr becomes 2 if its fields are refused, else 4 if the selected hart is not halted, else it stays |
| `RegisterAccess.CommandLostAtResume` | src/dm_mem.sv:146-165 | a command written in the clock in which a resume request is taken up neither runs nor records an error |
| `ResumeHandshake.AcknowledgementCleared` | src/dm_mem.sv:234-237 | a resume request clears the acknowledgement of the hart selected before the write, and no other |
| `ResumeHandshake.RequestSampled` | src/dm_csrs.sv:521-523 | the request is taken up in its one cycle or dropped |
| `ResumeHandshake.HaltRequestWins` | src/dm_mem.sv:158-164 | while a halt request stands no resume request is taken up |
| `ResumeHandshake.ResumeHeardExactly` | src/dm_csrs.sv:518-523 | select-and-resume in one write is heard if and only if the hart was selected already or shows no old acknowledgement |
| `ResumeHandshake.AcknowledgementStays` | src/dm_mem.sv:234-258 | an acknowledgement outlives the next debug entry; only a resume request written while its hart is selected clears it |
| `ResumeHandshake.RequestLost` | src/dm_csrs.sv:518-523 | a state within the invariant in which select-and-resume of a halted hart is not taken up and is dropped |
| `RingBuffer.Fifo.Tick` | src/uart/interface/fifo.sv:50-112 | in place on the array, one cycle does what a bounded queue does, except for a write with a read of the empty buffer |
| `RingBuffer.Fifo.Head` | src/uart/interface/fifo.sv:56-58 | the read port shows the oldest element |
| `RingBuffer.IncIsModulo` | src/uart/interface/fifo.sv:75-76 | pointer steps are steps modulo the size |
| `RingBuffer.FirstInFirstOut` | src/uart/interface/fifo.sv:74-112 | over any run: taken and remaining data are the accepted data, in order |
| `RingBuffer.StaysBounded` | src/uart/interface/fifo.sv:74-112 | occupancy never exceeds the capacity |
| `EscapeCoding.StuffRoundTrip` | src/uart/interface/tx_escape.sv:53-75 | unstuffing the stuffed stream gives it back exactly if no command byte equals ESC |
| `EscapeCoding.CommandBytesAreNotEscape` | src/uart/uart_pkg.sv:19-27 | no command code in use makes such a byte |
| `EscapeCoding.WireFormat` | src/uart/interface/rx_escape.sv:49-103 | 0xA0 announces a command byte and stands for itself when it comes twice, sent and received |
| `EscapeCoding.RxUnstuffer.Tick` | src/uart/interface/rx_escape.sv:39-103 | one clock edge of the receiver, with its outputs |
| `EscapeCoding.DeliversTokens` | src/uart/interface/rx_escape.sv:49-103 | for any empties and read delays the delivered and shown tokens are the parse of the bytes taken |
| `EscapeCoding.ReceiverRoundTrip` | src/uart/interface/rx_escape.sv:49-103 | a stuffed stream is delivered as it was, prefix by prefix |
| `EscapeCoding.ReceiverKeepsBufferExact` | src/uart/interface/rx_escape.sv:59-82 | the receiver never reads the empty buffer |
| `Serdes.TxSerializer.Tick` | src/uart/TX_SERIALIZER.sv:54-93 | one clock edge, with the bit loop, equals the next-state function |
| `Serdes.RxDeserializer.Tick` | src/uart/RX_DESERIALIZER.sv:51-69 | one clock edge, with the in-place slice write |
| `Serdes.CollectsBytes` | src/uart/RX_DESERIALIZER.sv:51-69 | for any pauses exactly the first ceil(length / 8) bytes are collected, lowest first |
| `Serdes.SerdesRoundTrip` | src/uart/RX_DESERIALIZER.sv:47-69 | deserializing the serialized bits yields them, zero-padded, after ceil(length / 8) bytes |
| `Serdes.SerializedByDivision` | src/uart/TX_SERIALIZER.sv:54-93 | byte k of the serialized vector is byte k of its number, lowest first |
| `Serdes.DoneAfterLastByte` | src/uart/RX_DESERIALIZER.sv:51-69 | without a wrap done is up exactly from the clock after the last byte |
| `Serdes.CompletesExactly` | src/uart/RX_DESERIALIZER.sv:29-69 | a word of nonzero length can be completed if and only if the count of its last byte fits the counter; the length port cuts a length equal to the counter range to zero |
| `Serdes.NoPowerNoWrap` | src/uart/TX_SERIALIZER.sv:50-52 | counters never wrap when the width is a multiple of 8 and no power of two |
| `Serdes.CounterRangeIsLeast` | src/uart/TX_SERIALIZER.sv:50-52 | a counter has the least power of two of states that is not below the width |
| `Serdes.FullVectorWraps` | src/uart/RX_DESERIALIZER.sv:47-69 | where the last byte wraps the count, every run from an incomplete word ends without done |
| `TxPath.TxStuffer.Tick` | src/uart/interface/tx_escape.sv:39-106 | one clock edge of the stuffing stage |
| `TxPath.ResetInvariant` | src/uart/interface/tx_escape.sv:45-52 | the path starts empty after reset |
| `TxPath.SentExactlyOnce` | src/uart/interface/tx_escape.sv:39-106 | over any run and frame times the bytes the driver latches are a prefix of the stuffed serialized bytes, and all of them when the path is empty |
| `TxPath.EncodedIsStuffed` | src/uart/interface/tx_escape.sv:53-75 | that encoding is the one the receiver undoes |
| `TxPath.DriverIsTransmitter` | src/uart/interface/uart_tx.sv:114-167 | the driver of the path is the line transmitter |
| `UartFrame.UartTx.Tick` | src/uart/interface/uart_tx.sv:50-167 | one clock edge of baud generator and frame logic |
| `UartFrame.SenderRemainder` | src/uart/interface/uart_tx.sv:40-41 | in 32-bit arithmetic the remainder parameter equals the interval exactly as long as ten times the clock rate does not overflow |
| `UartFrame.SendsFrame` | src/uart/interface/uart_tx.sv:114-167 | an accepted byte puts its frame on the line, bit by bit at the stated cycles, and nothing else is taken meanwhile |
| `UartFrame.WaveShowsByte` | src/uart/interface/uart_tx.sv:114-167 | cycle by cycle the line shows a low start bit, the bits of the byte from the lowest on, and a high stop bit |
| `UartSampling.UartRx.Tick` | src/uart/interface/uart_rx.sv:54-143 | one clock edge of baud generator and capture |
| `UartSampling.UartRx.CountBaud` | src/uart/interface/uart_rx.sv:54-90 | the baud generator with its correction cycles |
| `UartSampling.NextSampleTime` | src/uart/interface/uart_rx.sv:54-90 | sample k falls S/2 + 1 + kS + floor((k + 1) / R) cycles after the edge: the recurrence the counters follow |
| `UartSampling.CorrectionIsCounter` | src/uart/interface/uart_rx.sv:43-62 | the correction period is the start value of the counter, cut to its declared width, plus one |
| `UartSampling.FrameSampled` | src/uart/interface/uart_rx.sv:97-143 | from an edge the byte reported is read off the line at these times, and the receiver is armed two cycles after the last |
| `UartLoopback.RearmedInTime` | src/uart/interface/uart_rx.sv:128-141 | re-arming beats the earliest next edge exactly under the drift bound |
| `UartDrift.OneIsLost` | src/uart/interface/uart_rx.sv:97-143 | past the bound two zero bytes back to back give at most one byte |
| `UartDrift.FaithfulExactly` | src/uart/interface/uart_rx.sv:43-143 | every sequence of requests is received as it was taken if and only if the corrections of a frame fit the drift bound |
| `UartDrift.FaithfulInNumbers` | src/uart/interface/uart_rx.sv:43-143 | the same with the bound as a formula in the interval and the correction period |
| `UartLoopback.SynchroniserDelays` | src/uart/interface/uart_rx.sv:29-40 | the synchroniser shows the line four cycles later |
| `UartLoopback.FrameReceived` | src/uart/interface/uart_rx.sv:97-143 | under the bound a frame and two high cycles give its byte |
| `UartLoopback.Loopback` | src/uart/interface/uart_tx.sv:114-167 | after a quiet time the bytes received are exactly the bytes taken |
| `UartLoopback.LoopbackPrefix` | src/uart/interface/uart_rx.sv:97-143 | at every moment they are a prefix: no loss, repetition, reordering or change |
| `UartLoopback.LoopbackAtRates` | src/uart/interface/uart_rx.sv:43-46 | the same in clock and baud rates, for clock rates whose tenfold fits the parameters; from 21 cycles a bit the bound always holds |
| `UartTap.CommandDecoder.Tick` | src/uart/COMMAND_DECODER.sv:71-174 | one clock edge of the four-phase handover |
| `UartTap.WriteArbiter.Tick` | src/uart/dmi_uart_tap.sv:149-202 | one clock edge of the write arbiter, branch by branch |
| `UartTap.CommandByte` | src/uart/COMMAND_DECODER.sv:71-174 | which side each command of a command byte is offered to, and with which address |
| `DmiBridge.DmiUart.Tick` | src/uart/dmi_uart.sv:85-131 | one clock edge of the bridge |
| `DmiBridge.StaysInStep` | src/dm_csrs.sv:554-575 | the response queue never holds more than one entry |
| `DmiBridge.OneTransactionEach` | src/uart/dmi_uart.sv:85-131 | each request taken over makes exactly one transaction, in order |
| `DmiBridge.ReadsGetTheirAnswers` | src/uart/dmi_uart.sv:107-115 | every read captures the answer to its own transaction |
| `DmiBridge.PortReadsLastAnswer` | src/uart/dmi_uart.sv:136-149 | whenever the port is answered it gets the answer to the last read taken over |
| `DmiBridge.StallRepeats` | src/uart/dmi_uart.sv:101-106 | a stalled request is strobed twice |
| `WritePath.CollectRun` | src/uart/dmi_uart_tap.sv:185-190 | bytes read at any pace are collected once each and nothing is sent meanwhile |
| `WritePath.CommandTaken` | src/uart/COMMAND_DECODER.sv:153-169 | the handover of a write command takes four cycles and clears the word shown to the targets |
| `WritePath.StrobeSeen` | src/uart/dmi_uart_tap.sv:193-198 | the bridge sees the strobe one cycle before the new word |
| `WritePath.PayloadWritten` | src/uart/dmi_uart_tap.sv:185-198 | which transaction a payload makes, given the word shown before |
| `WritePath.EndToEndWrite` | src/uart/dmi_uart_tap.sv:77-198 | a write command, six bytes at any pace and seven quiet cycles make exactly one transaction for a read or write word and none otherwise |
| `WritePath.NumberWritten` | src/uart/dmi_uart.sv:41-55 | after command byte 0x71, six bytes that stand for address * 2^34 + data * 4 + op make exactly one read of that address for op 1, one write of that data to it for op 2, and no transaction for 0 and 3 |
| `WritePath.WordArrives` | src/uart/dmi_uart.sv:41-55 | the bytes of a serialized word bring its low 41 bits as a number, and its transaction |
| `WritePath.RepeatedPayload` | src/uart/dmi_uart_tap.sv:193-198 | a repeated payload is written rightly if and only if the word before asked for nothing or for the same |
| `SystemBus.Sba.ServeRequest` | src/dm_csrs.sv:331-480 | the register side of a request, with the refusals and the strobes |
| `SystemBus.Sba.Tick` | src/dm_sba.sv:88-159 | one clock edge of engine and registers |
| `SystemBus.MaskIsAlignedGroup` | src/dm_sba.sv:68-86 | byte enables are the aligned group around the address |
| `SystemBus.RequestStable` | src/dm_sba.sv:111-122 | no DMI request changes anything of a pending bus request |
| `SystemBus.BusRefinesWindow` | src/dm_sba.sv:101-141 | every cycle, for any delays and any interfering requests, is a step of an auto-incrementing window on memory |
| `SystemBus.ReadStream` | src/dm_sba.sv:124-130 | the i-th accepted read of a stream returns word i |
| `SystemBus.StreamStarts` | src/dm_sba.sv:104-108 | writing the address starts the stream |
| `SystemBus.WriteStream` | src/dm_sba.sv:132-138 | the i-th accepted write lands at word i, and nothing else changes in memory |
| `SystemBus.ControlWritten` | src/dm_csrs.sv:431-443 | a write of 0x38 on the idle engine sets increment, read on address and read on data from bits 16, 20 and 15 and clears the errors written as ones |
| `SystemBus.RefusedExactly` | src/dm_csrs.sv:431-480 | the requests, by address, that a running access or the busy error refuses, and that they change nothing else |
| `SystemBus.StartsExactly` | src/dm_sba.sv:101-109 | which requests start a read or a write of the idle engine |
| `SystemBus.BlockRead` | src/dm_sba.sv:88-151 | from the write of the control register on: the i-th accepted read of 0x3c returns the i-th word from the address written |
| `SystemBus.BlockWrite` | src/dm_sba.sv:88-151 | from the write of the control register on: the accepted writes of 0x3c land one after the other, and nothing else changes |
| `JtagTransport.DmiJtag.TickEngine` | src/dmi_jtag.sv:91-175 | the access engine and the sticky error of a test clock |
| `JtagTransport.DmiJtag.Tick` | src/dmi_jtag.sv:177-219 | one test clock of TAP, registers and engine |
| `JtagTransport.HighsReset` | src/dmi_jtag_tap.sv:247-333 | holding TMS high resets from any state after exactly its distance, at most five clocks |
| `JtagTransport.OneOutstanding` | src/dmi_jtag.sv:101-153 | over all runs at most one transaction is outstanding and none starts under an error |
| `JtagTransport.CaptureShowsRecord` | src/dmi_jtag.sv:180-192 | over all runs a capture without error after a read shows that read's response |
| `JtagTransport.ErrorRaisedExactly` | src/dmi_jtag.sv:155-174 | the error is raised exactly by being too fast, whichever register is selected |
| `JtagTransport.StickyErrorBlocks` | src/dmi_jtag.sv:104-114 | until it is cleared no request starts |
| `JtagTransport.ScanShifts` | src/dmi_jtag.sv:194-198 | n clocks in the shift state move the register by n bits, pauses or not |
| `JtagTransport.FullScanExchanges` | src/dmi_jtag_tap.sv:276-288 | a 41-bit scan exchanges the register's content |
| `JtagTransport.RequestByOp` | src/dmi_jtag.sv:101-115 | op code 1 starts a read, 2 a write, others nothing, with address and data of the scan |
| `JtagTransport.ErrorClearedExactly` | src/dmi_jtag.sv:155-174 | the error goes away exactly by a one in bit 16 updated into register 0x10 |
| `JtagTransport.StatusWord` | src/dmi_jtag_tap.sv:149-163 | the fields that dtmcs reads, as numbers at their bits |
| `JtagTransport.InstructionRegister` | src/dmi_jtag_tap.sv:94-118 | what the instruction register shifts out, and which register a scan or a reset selects |
| `JtagTransport.ScanPaths` | src/dmi_jtag_tap.sv:247-333 | TMS sequences for data and instruction scans with pauses of any length, and back to idle |
| `JtagScans.Selected` | src/dmi_jtag_tap.sv:94-118 | five bits scanned into the instruction register select the register with that number |
| `JtagScans.ErrorScanned` | src/dmi_jtag_tap.sv:144-176 | 32 bits scanned into register 0x10 and updated clear a pending error exactly if bit 16 is one |
| `JtagScans.StatusCaptured` | src/dmi_jtag_tap.sv:149-164 | the capture of register 0x10 shows the status word with the current error |
| `JtagScans.PlainScan` | src/dmi_jtag_tap.sv:247-333 | TMS low and then high with the last bit scans exactly the bits on the pad |
| `JtagScans.Transacts` | src/dmi_jtag.sv:91-219 | from the pads and back: a scanned request asks the channel for one read of its address or one write of its data, and the next scan shifts out the answer to this read, or status 3 exactly while it has not come |

## Left out

- Program buffer execution (postexec): arbitrary code, after which the exception path may restore stale
  s0 and a0 from the scratch registers.
- Abstract reads of dscratch1 where the ROM leaves that register alone: its value is no part of the model.
- Fetch and data access of one hart instruction happen in the same clock; a change of the flags between
  the two is not modelled. Fetches and other reads may still occupy the row register in any cycle.
- hartreset, ndmreset, havereset, dmactive going low with a command in flight, unavailable harts, and a
  debugger that writes dmcontrol while a command runs.
- The single cycle between a command write and the go flag, in which busy still reads low: a write in it
  may change data and command. `CommandCompletes.CommandCompleted` assumes no write there; the theorems of
  `DebugRuns.dfy` speak of the values at the GOING report.
- dmstatus, hartinfo and the other read-only registers, and reading abstractauto back; SBAddress1 and SBData1 (upper halves, dropped on
  the 32-bit bus); a 64-bit bus.
- HALF_FULL_O of the ring buffer, and the pause and resume bytes of the transmitter that depend on it.
- Transmitters at clock rates of 214,748,365 Hz and more: their remainder parameter is another one
  (`UartFrame.SenderRemainder`), and its correction cycles are not modelled.
- UART channel switching, the read interconnect and the read arbiter; writes to the STB targets beyond
  the readiness they answer with; DTMCS over the serial port.
- Data bytes that are already waiting when reception is enabled, and a seventh byte in the seven cycles
  after the sixth: the capture logic takes or drops them by chance of timing.
- UartSampling.FrameSampled: frames with a low stop bit, which switch the channel, are not followed further.
- HaltSummary.HaltSum3: for a multiple of 2^15 harts the source reads outside its vector; no value is modelled.
- SystemBus.ReadStream: the data register after a write holds whatever the bus answered; the model calls
  it unknown.
- cdc_2phase, fifo_v2 and the clock cells are not part of this model: the crossing is a channel with at
  most one request under way, the response queue a queue of depth two.
- IDCODE and BYPASS scans, test mode, and TDO timing on the falling edge.
- Test benches, Verilator and DPI glue, FPGA tops, `dm_top` wiring beyond the signals named here.
- SelectableHarts is taken as all ones. Asynchronous resets appear as initial states.
