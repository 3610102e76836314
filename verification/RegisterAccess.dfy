/** What the debugger gets for a command word: the register that the number names, read or written
    with the size the word asks for. */
module RegisterAccess {
  import opened Words
  import opened Harts
  import opened AbstractCommands
  import opened DebugMemory
  import opened ParkLoop
  import opened CommandRuns
  import opened CommandRefinement
  import opened CommandFormat
  import opened ControlRegs
  import opened DebugSystem
  import opened DebugRuns
  import opened DebugProgress
  import opened CommandCompletes
  import ResumeHandshake

  // ---- The values ------------------------------------------------------------------------------------

  /** Values of 8, 16 or 32 bits. */
  function Range(size: nat): nat {
    if size == 0 then 0x100 else if size == 1 then 0x1_0000 else 0x1_0000_0000
  }

  /** The low bits of a word, extended by their sign to the whole register. */
  function Extended(size: nat, w: Word): Word {
    var low := w % Range(size);
    if low >= Range(size) / 2 then low + (0x1_0000_0000 - Range(size)) else low
  }

  /** A word whose low bits are those of another one. */
  function Replaced(size: nat, old_: Word, new_: Word): Word {
    assert old_ - old_ % Range(size) + new_ % Range(size) < 0x1_0000_0000 by { ReplacedInRange(size, old_, new_); }
    old_ - old_ % Range(size) + new_ % Range(size)
  }

  lemma ReplacedInRange(size: nat, old_: Word, new_: Word)
    ensures old_ - old_ % Range(size) + new_ % Range(size) < 0x1_0000_0000
  {
  }

  lemma ExtendedIs(size: nat, w: Word)
    requires size < 3
    ensures SignExtend(size, w) == Extended(size, w)
  {
  }

  lemma ReplacedIs(size: nat, old_: Word, new_: Word)
    requires size < 3
    ensures Overlay(size, old_, new_) == Replaced(size, old_, new_)
  {
  }

  // ---- The accesses by register number ------------------------------------------------------------------

  lemma IntegerOutcome(two: bool, f: Fields, high: nat, middle: nat, r: Reg, a: Arch, d: Word)
    requires AccessesRegister(f) && f.regno == high * 0x2000 + 0x1000 + middle * 0x40 + r && high < 2 && middle < 0x40
    requires ValidArch(a)
    ensures ProgramAccess(two, Composed(f), a, d)
         == if !f.write then Outcome(a, Replaced(f.size, d, a.gpr[r]), false)
            else if r == 0 then Outcome(a, d, false)
            else Outcome(a.(gpr := a.gpr[r := Extended(f.size, d)]), d, false)
  {
    hide Composed, Regno, Aarsize, IsWrite, Transfer, Unsupported, Extended, Replaced, SignExtend, Overlay;
    FieldsFound(f);
    RefusedExactly(f);
    IntegerNumber(f.regno, high, middle, r);
    ExtendedIs(f.size, d);
    ReplacedIs(f.size, d, a.gpr[r]);
  }

  lemma FloatOutcome(two: bool, f: Fields, high: nat, middle: nat, r: Reg, a: Arch, d: Word)
    requires AccessesRegister(f) && f.regno == high * 0x2000 + 0x1020 + middle * 0x40 + r && high < 2 && middle < 0x40
    requires ValidArch(a)
    ensures ProgramAccess(two, Composed(f), a, d)
         == if !a.fpu || f.size != 2 then Outcome(a, d, true)
            else if f.write then Outcome(a.(fpr := a.fpr[r := d]), d, false)
            else Outcome(a, a.fpr[r], false)
  {
    hide Composed, Regno, Aarsize, IsWrite, Transfer, Unsupported, SignExtend, Overlay;
    FieldsFound(f);
    RefusedExactly(f);
    FloatNumber(f.regno, high, middle, r);
  }

  /** A CSR proper: not one of the two scratch registers. */
  lemma CsrOutcome(two: bool, f: Fields, high: nat, n: nat, a: Arch, d: Word)
    requires AccessesRegister(f) && f.regno == high * 0x2000 + n && high < 2 && n < 0x1000 && n != 0x7b2 && n != 0x7b3
    requires ValidArch(a)
    ensures ProgramAccess(two, Composed(f), a, d)
         == if f.write then
              (if n in a.csr && n < 0xc00 then Outcome(a.(csr := a.csr[n := Extended(f.size, d)]), d, false)
               else Outcome(a, d, true))
            else if n == 0xf14 then Outcome(a, Replaced(f.size, d, a.id), false)
            else if n in a.csr then Outcome(a, Replaced(f.size, d, a.csr[n]), false)
            else Outcome(a, d, true)
  {
    hide Composed, Regno, Aarsize, IsWrite, Transfer, Unsupported, Extended, Replaced, SignExtend, Overlay;
    FieldsFound(f);
    RefusedExactly(f);
    CsrNumber(f.regno, high, n);
    ExtendedIs(f.size, d);
    ReplacedIs(f.size, d, a.id);
    if n in a.csr { ReplacedIs(f.size, d, a.csr[n]); }
    assert ReadOnlyCsr(n) <==> n >= 0xc00;
  }

  /** The scratch registers stand for s0 and, with a base address, a0. */
  lemma ScratchOutcome(two: bool, f: Fields, high: nat, n: nat, a: Arch, d: Word)
    requires AccessesRegister(f) && f.regno == high * 0x2000 + n && high < 2 && (n == 0x7b2 || (two && n == 0x7b3))
    requires ValidArch(a)
    ensures var r: Reg := if n == 0x7b2 then 8 else 10;
      ProgramAccess(two, Composed(f), a, d)
         == if f.write then Outcome(a.(gpr := a.gpr[r := Extended(f.size, d)]), d, false)
            else Outcome(a, Replaced(f.size, d, a.gpr[r]), false)
  {
    hide Composed, Regno, Aarsize, IsWrite, Transfer, Unsupported, Extended, Replaced, SignExtend, Overlay;
    FieldsFound(f);
    RefusedExactly(f);
    CsrNumber(f.regno, high, n);
    ExtendedIs(f.size, d);
    ReplacedIs(f.size, d, a.gpr[8]);
    ReplacedIs(f.size, d, a.gpr[10]);
  }

  // ---- From the write of the command to the idle controller -------------------------------------------------

  /** Word `c` is written to the command register at 0x17 with hart `k` selected and halted; then no
      write for one clock, then anything, with at least 44 steps of the hart. */
  predicate Issued(cfg: Config, s: System, i1: Input, i2: Input, ins: seq<Input>, k: nat, c: Word) {
    && Invariant(cfg, s) && Resting(cfg, s, k) && !s.csrs.cmdValid
    && Legal(cfg, s, i1) && i1.op == Write(0x17, c) && !Unsupported(c)
    && ValidMemIn(MemInput(cfg, s, i1)) && WellFormed(cfg, Step(cfg, s, i1))
    && Legal(cfg, Step(cfg, s, i1), i2) && !i2.op.Write? && ValidMemIn(MemInput(cfg, Step(cfg, s, i1), i2))
    && LegalRun(cfg, Step(cfg, Step(cfg, s, i1), i2), ins) && OwnSteps(ins, k) >= 44
  }

  /** The first idle state is reached. */
  lemma Finishes(cfg: Config, s: System, i1: Input, i2: Input, ins: seq<Input>, k: nat, c: Word)
    requires Issued(cfg, s, i1, i2, ins, k, c)
    ensures VisitsIdle(cfg, Step(cfg, Step(cfg, s, i1), i2), ins) && k < |s.harts| && ValidHart(s.harts[k])
    ensures ValidArch(ProgramRegisters(cfg, s.harts[k])) && |s.csrs.data| == 2
    ensures Done(cfg, FirstIdle(cfg, Step(cfg, Step(cfg, s, i1), i2), ins), k,
                 ProgramAccess(Two(cfg), c, ProgramRegisters(cfg, s.harts[k]), s.csrs.data[0]))
  {
    hide Invariant, Resting, Legal, ValidMemIn, WellFormed, Step, MemInput, ProgramRegisters, ProgramAccess, ValidArch, OwnSteps, PlainAccess,
      HoldsRegisters;
    ReachedWellFormed(cfg, s);
    CommandCompleted(cfg, s, i1, i2, ins, k, c);
    assert WellFormed(cfg, Step(cfg, Step(cfg, s, i1), i2)) by { RunWellFormed(cfg, Step(cfg, Step(cfg, s, i1), i2), ins); }
    var f := FirstIdle(cfg, Step(cfg, Step(cfg, s, i1), i2), ins);
    HoldsMeans(cfg, f, k, ProgramAccess(Two(cfg), c, ProgramRegisters(cfg, s.harts[k]), s.csrs.data[0]).arch);
  }

  lemma RunWellFormed(cfg: Config, s: System, ins: seq<Input>)
    requires LegalRun(cfg, s, ins)
    ensures WellFormed(cfg, s)
  {
    hide WellFormed, Legal, ValidMemIn, MemInput, Step;
  }

  lemma HoldsMeans(cfg: Config, f: System, k: nat, a: Arch)
    requires HoldsRegisters(cfg, f, k, a)
    ensures k < |f.harts| && ValidHart(f.harts[k]) && f.harts[k].debug && ProgramRegisters(cfg, f.harts[k]) == a
  {
    hide ProgramRegisters, At, PointOf, ValidHart;
  }

  /** The controller is idle, and registers, data and error are these; three is the exception code. */
  predicate Done(cfg: Config, f: System, k: nat, out: Outcome) {
    && f.mem.fsm.Idle? && k < |f.harts| && ValidHart(f.harts[k]) && f.harts[k].debug
    && ProgramRegisters(cfg, f.harts[k]) == out.arch
    && |f.csrs.data| == 2 && f.csrs.data[0] == out.data && (f.csrs.cmderr == 3 <==> out.trapped)
  }

  /** Number 0x1000 + r: integer register r of the hart is written from or read into the data register,
      and nothing else of the program changes. */
  lemma IntegerRegisterAccess(cfg: Config, s: System, i1: Input, i2: Input, ins: seq<Input>, k: nat, f: Fields, r: Reg)
    requires AccessesRegister(f) && f.regno == 0x1000 + r
    requires Issued(cfg, s, i1, i2, ins, k, Composed(f))
    ensures VisitsIdle(cfg, Step(cfg, Step(cfg, s, i1), i2), ins) && k < |s.harts| && ValidHart(s.harts[k])
    ensures ValidArch(ProgramRegisters(cfg, s.harts[k])) && |s.csrs.data| == 2
    ensures var a, d := ProgramRegisters(cfg, s.harts[k]), s.csrs.data[0];
      Done(cfg, FirstIdle(cfg, Step(cfg, Step(cfg, s, i1), i2), ins), k,
           if !f.write then Outcome(a, Replaced(f.size, d, a.gpr[r]), false)
           else if r == 0 then Outcome(a, d, false)
           else Outcome(a.(gpr := a.gpr[r := Extended(f.size, d)]), d, false))
  {
    hide Issued, Done, Composed, ProgramRegisters, ProgramAccess, ValidArch, Extended, Replaced, Step, VisitsIdle, FirstIdle;
    Finishes(cfg, s, i1, i2, ins, k, Composed(f));
    IntegerOutcome(Two(cfg), f, 0, 0, r, ProgramRegisters(cfg, s.harts[k]), s.csrs.data[0]);
  }

  /** Number 0x1020 + r: float register r, as a word; without a float unit or with another size the
      command fails and changes nothing. */
  lemma FloatRegisterAccess(cfg: Config, s: System, i1: Input, i2: Input, ins: seq<Input>, k: nat, f: Fields, r: Reg)
    requires AccessesRegister(f) && f.regno == 0x1020 + r
    requires Issued(cfg, s, i1, i2, ins, k, Composed(f))
    ensures VisitsIdle(cfg, Step(cfg, Step(cfg, s, i1), i2), ins) && k < |s.harts| && ValidHart(s.harts[k])
    ensures ValidArch(ProgramRegisters(cfg, s.harts[k])) && |s.csrs.data| == 2
    ensures var a, d := ProgramRegisters(cfg, s.harts[k]), s.csrs.data[0];
      Done(cfg, FirstIdle(cfg, Step(cfg, Step(cfg, s, i1), i2), ins), k,
           if !a.fpu || f.size != 2 then Outcome(a, d, true)
           else if f.write then Outcome(a.(fpr := a.fpr[r := d]), d, false)
           else Outcome(a, a.fpr[r], false))
  {
    hide Issued, Done, Composed, ProgramRegisters, ProgramAccess, ValidArch, Extended, Replaced, Step, VisitsIdle, FirstIdle;
    Finishes(cfg, s, i1, i2, ins, k, Composed(f));
    FloatOutcome(Two(cfg), f, 0, 0, r, ProgramRegisters(cfg, s.harts[k]), s.csrs.data[0]);
  }

  /** Numbers below 0x1000: the CSR of that number; an absent one, or a write to a read-only one, fails
      and changes nothing. */
  lemma CsrAccessByNumber(cfg: Config, s: System, i1: Input, i2: Input, ins: seq<Input>, k: nat, f: Fields, n: nat)
    requires AccessesRegister(f) && f.regno == n < 0x1000 && n != 0x7b2 && n != 0x7b3
    requires Issued(cfg, s, i1, i2, ins, k, Composed(f))
    ensures VisitsIdle(cfg, Step(cfg, Step(cfg, s, i1), i2), ins) && k < |s.harts| && ValidHart(s.harts[k])
    ensures ValidArch(ProgramRegisters(cfg, s.harts[k])) && |s.csrs.data| == 2
    ensures var a, d := ProgramRegisters(cfg, s.harts[k]), s.csrs.data[0];
      Done(cfg, FirstIdle(cfg, Step(cfg, Step(cfg, s, i1), i2), ins), k,
           if f.write then
             (if n in a.csr && n < 0xc00 then Outcome(a.(csr := a.csr[n := Extended(f.size, d)]), d, false)
              else Outcome(a, d, true))
           else if n == 0xf14 then Outcome(a, Replaced(f.size, d, a.id), false)
           else if n in a.csr then Outcome(a, Replaced(f.size, d, a.csr[n]), false)
           else Outcome(a, d, true))
  {
    hide Issued, Done, Composed, ProgramRegisters, ProgramAccess, ValidArch, Extended, Replaced, Step, VisitsIdle, FirstIdle;
    Finishes(cfg, s, i1, i2, ins, k, Composed(f));
    CsrOutcome(Two(cfg), f, 0, n, ProgramRegisters(cfg, s.harts[k]), s.csrs.data[0]);
  }

  // ---- The error of a command that is not run ---------------------------------------------------------------

  /** The commands that the compiler refuses, by their fields. */
  predicate Refused(f: Fields) {
    f.cmdtype != 0 || f.size >= 3 || (f.transfer && f.regno >= 0x4000) || (!f.transfer && f.increment)
  }

  /** What the controller reports in a cycle, as it is stored in cmderr: 3 for an exception; for a
      command that has just been written, 2 if it is refused and 4 if the idle controller finds the
      selected hart not halted. */
  lemma ReportedError(m: Mem, i: MemIn, f: Fields)
    requires InRange(f) && i.command == Composed(f)
    ensures Code(ErrorOf(m, i))
         == if Writes(i, 0x10c) then 3
            else if !i.cmdValid then 0
            else if Refused(f) then 2
            else if m.fsm.Idle? && !Bit(m.halted, i.sel) then 4 else 0
  {
    hide Composed, Unsupported;
    RefusedExactly(f);
  }

  lemma NoExceptionUnlessExecuting(cfg: Config, s: System, i: Input)
    requires Sound(cfg, s, i) && !s.mem.fsm.CmdExecuting?
    ensures !Writes(MemInput(cfg, s, i), 0x10c) && ValidMemIn(MemInput(cfg, s, i))
  {
    hide WellFormed, FsmOk, Legal, ValidMemIn, MemInput, Stands, Reports, Writes, Selected;
  }

  lemma WrittenCommand(cfg: Config, s: System, i: Input, c: Word)
    requires Sound(cfg, s, i) && s.mem.fsm.Idle? && i.op == Write(0x17, c)
    requires ValidMemIn(MemInput(cfg, s, i))
    ensures var t := Step(cfg, s, i); t.csrs.cmdValid && t.csrs.command == c && !t.mem.fsm.CmdExecuting?
  {
    hide Stands, BusAccess, HartIndex, ControlOf, NextHarts, NextPast, Plain, Unsupported, RequestOf, BitAt, Reporting, FsmOk, Legal,
      Selected, NextControl, NextCmdErr;
  }

  lemma ErrorStored(cfg: Config, s: System, i: Input)
    requires WellFormed(cfg, s) && ValidMemIn(MemInput(cfg, s, i))
    ensures var e, c := Code(ErrorOf(s.mem, MemInput(cfg, s, i))), Step(cfg, s, i).csrs.cmderr;
      && (e != 0 ==> c == e)
      && (e == 0 && (i.op == Nothing || (s.mem.fsm.Idle? && !(i.op.Write? && i.op.addr == 0x16))) ==> c == s.csrs.cmderr)
  {
    hide BusAccess, HartIndex, ControlOf, NextHarts, NextPast, Plain, RequestOf, BitAt, Selected, NextControl, NextMem,
      NextAuto, NextProgbuf, NextData, StartsCommand, Merge, MemInput, ErrorOf;
  }

  /** In the clock after a command was accepted cmderr becomes 2 if the command is refused, whatever
      the harts do; else 4 if the idle controller finds the selected hart not halted; else nothing
      is recorded. The last case includes a controller that has taken up a resume request in the
      clock of the write: then the command is dropped without an error. */
  lemma CommandError(cfg: Config, s: System, i1: Input, i2: Input, f: Fields)
    requires Invariant(cfg, s) && s.mem.fsm.Idle? && InRange(f)
    requires Legal(cfg, s, i1) && i1.op == Write(0x17, Composed(f))
    requires ValidMemIn(MemInput(cfg, s, i1)) && WellFormed(cfg, Step(cfg, s, i1))
    requires Legal(cfg, Step(cfg, s, i1), i2) && ValidMemIn(MemInput(cfg, Step(cfg, s, i1), i2))
    ensures var s1, t := Step(cfg, s, i1), Step(cfg, Step(cfg, s, i1), i2);
      if Refused(f) then t.csrs.cmderr == 2
      else if s1.mem.fsm.Idle? && !Bit(s1.mem.halted, Selected(cfg, s1)) then t.csrs.cmderr == 4
      else i2.op == Nothing || (s1.mem.fsm.Idle? && !(i2.op.Write? && i2.op.addr == 0x16)) ==> t.csrs.cmderr == s1.csrs.cmderr
    ensures var s1, t := Step(cfg, s, i1), Step(cfg, Step(cfg, s, i1), i2);
      s1.mem.fsm.Resume? ==> !t.mem.fsm.Go? && !t.mem.fsm.CmdExecuting?
  {
    hide Invariant, Legal, WellFormed, Step, MemInput, Sound, ValidMemIn, Selected, Composed, Refused, Writes;
    ReachedWellFormed(cfg, s);
    var s1 := Step(cfg, s, i1);
    BusyStepSound(cfg, s, i1);
    BusyStepSound(cfg, s1, i2);
    WrittenCommand(cfg, s, i1, Composed(f));
    NoExceptionUnlessExecuting(cfg, s1, i2);
    MemInputParts(cfg, s1, i2);
    ReportedError(s1.mem, MemInput(cfg, s1, i2), f);
    ErrorStored(cfg, s1, i2);
    ResumeGoesOn(cfg, s1, i2);
  }

  /** A command that is written in the clock in which a resume request is taken up is lost: it does
      not run, and no error is recorded. */
  lemma CommandLostAtResume(cfg: Config, s: System, i1: Input, i2: Input, f: Fields)
    requires Invariant(cfg, s) && s.mem.fsm.Idle? && InRange(f) && !Refused(f)
    requires Legal(cfg, s, i1) && i1.op == Write(0x17, Composed(f)) && i2.op == Nothing
    requires ValidMemIn(MemInput(cfg, s, i1)) && WellFormed(cfg, Step(cfg, s, i1))
    requires Legal(cfg, Step(cfg, s, i1), i2) && ValidMemIn(MemInput(cfg, Step(cfg, s, i1), i2))
    requires s.csrs.control.resumereq && !s.csrs.control.haltreq
    requires Selected(cfg, s) < cfg.harts && Bit(s.mem.halted, Selected(cfg, s)) && !Bit(s.mem.resuming, Selected(cfg, s))
    ensures var s1, t := Step(cfg, s, i1), Step(cfg, Step(cfg, s, i1), i2);
      s1.mem.fsm.Resume? && !t.mem.fsm.Go? && !t.mem.fsm.CmdExecuting? && !t.csrs.cmdValid && t.csrs.cmderr == s1.csrs.cmderr
  {
    hide Invariant, Legal, WellFormed, Step, MemInput, Sound, ValidMemIn, Selected, Composed, Refused, Writes;
    ReachedWellFormed(cfg, s);
    BusyStepSound(cfg, s, i1);
    Shapes(cfg, s, Selected(cfg, s));
    ResumeHandshake.RequestSampled(cfg, s, i1);
    CommandError(cfg, s, i1, i2, f);
    NothingStartsNothing(cfg, Step(cfg, s, i1), i2);
  }

  lemma NothingStartsNothing(cfg: Config, s: System, i: Input)
    requires WellFormed(cfg, s) && ValidMemIn(MemInput(cfg, s, i)) && i.op == Nothing
    ensures !Step(cfg, s, i).csrs.cmdValid
  {
    hide BusAccess, HartIndex, Selected, NextHarts, NextPast, NextMem, MemInput, NextControl, NextCmdErr, NextData;
  }

  lemma MemInputParts(cfg: Config, s: System, i: Input)
    requires WellFormed(cfg, s)
    ensures var m := MemInput(cfg, s, i);
      m.sel == Selected(cfg, s) && m.cmdValid == s.csrs.cmdValid && m.command == s.csrs.command
  {
    hide WellFormed, BusAccess, Selected;
  }

  lemma ResumeGoesOn(cfg: Config, s: System, i: Input)
    requires WellFormed(cfg, s) && ValidMemIn(MemInput(cfg, s, i))
    ensures s.mem.fsm.Resume? ==> !Step(cfg, s, i).mem.fsm.Go? && !Step(cfg, s, i).mem.fsm.CmdExecuting?
  {
    hide BusAccess, HartIndex, Selected, NextHarts, NextPast, NextCsrs, MemInput;
  }
}
