/** The generated program of every supported transfer refines the plain register interface. */
module CommandRefinement {
  import opened Words
  import opened Riscv
  import opened DebugRom
  import opened Harts
  import opened AbstractCommands
  import opened DebugMemory
  import opened ParkLoop
  import opened CommandRuns

  /** A command without program buffer execution. Excluded is also reading dscratch1 where the
      ROM leaves it alone: its value is then no part of the model. */
  predicate Plain(two: bool, c: Word) {
    !PostExec(c) && !(!two && TargetOf(c) == Csr(CSR_DSCRATCH1) && !IsWrite(c))
  }

  predicate Served(two: bool, c: Word) {
    Plain(two, c) && !Unsupported(c)
  }

  predicate Running(cfg: Config, v: View) {
    ValidConfig(cfg) && ValidView(v) && v.sel < 1024 && v.fsm.CmdExecuting?
  }

  /** The hart is about to execute slot `i`, with the step budget of that slot. */
  predicate Slotted(cfg: Config, v: View, s: Solo, i: nat, a: Arch, n: nat) {
    Running(cfg, v) && Served(Two(cfg), v.command) && SlotCoherent(cfg, i, s.hart, a) && i < 9 && n >= 24 - i && !s.trapped
  }

  /** A transfer whose fifth slot holds `instr` and whose next three slots are empty. */
  predicate Single(two: bool, c: Word, instr: Instr) {
    Served(two, c) && Transfer(c) && TransferProgram(two, c) == [instr, NOP, NOP, NOP]
  }

  lemma TransferSlot(two: bool, c: Word, i: nat)
    requires Served(two, c) && Transfer(c) && 4 <= i < 8
    ensures Program(two, c, i) == TransferProgram(two, c)[i - 4]
  {
    hide Unsupported, PostExec, TransferProgram;
  }

  /** Empty slots 5 to 7 lead to the epilogue. */
  lemma {:induction false} NopsEnd(cfg: Config, v: View, s: Solo, i: nat, instr: Instr, n: nat, out: Outcome)
    requires Slotted(cfg, v, s, i, out.arch, n) && Single(Two(cfg), v.command, instr)
    requires 5 <= i && s.data == out.data && !out.trapped
    ensures Ends(cfg, v, s, n, out)
    decreases 8 - i
  {
    hide Unsupported, PostExec, Ends, Perform, TransferProgram, Transfer;
    if i == 8 {
      EpilogueEnds(cfg, v, s, n, out);
    } else {
      var w := SoloView(v, s.data);
      TransferSlot(Two(cfg), v.command, i);
      RunNop(cfg, w, s.hart);
      SlotPc(cfg, s.hart, i);
      NopsEnd(cfg, v, s.(hart := Perform(cfg, w, s.hart, NOP)), i + 1, instr, n - 1, out);
      SilentSlot(cfg, v, s, i, NOP, n, out);
    }
  }

  // ---- Transfers of one instruction --------------------------------------------------------

  /** Loading a general register. */
  lemma GprWriteEnds(cfg: Config, v: View, s: Solo, a: Arch, r: Reg, n: nat)
    requires Slotted(cfg, v, s, 4, a, n) && Transfer(v.command) && IsWrite(v.command)
    requires TargetOf(v.command) == Gpr(r) && !TakesA0(Two(cfg), v.command)
    ensures Ends(cfg, v, s, n, ProgramAccess(Two(cfg), v.command, a, s.data))
  {
    hide Unsupported, PostExec, Transfer, IsWrite, TargetOf, Aarsize, Ends, SignExtend, Perform;
    var c := v.command;
    var size := Aarsize(c);
    SupportedSize(Two(cfg), c);
    var instr := Load(size, r, Base(Two(cfg)), DATA);
    var out := ProgramAccess(Two(cfg), c, a, s.data);
    TransferSlot(Two(cfg), c, 4);
    assert Single(Two(cfg), c, instr);
    SlotPc(cfg, s.hart, 4);
    var h5 := SetReg(s.hart, r, SignExtend(size, s.data)).(pc := Wrap(s.hart.pc + 4));
    assert SlotCoherent(cfg, 5, h5, out.arch);
    NopsEnd(cfg, v, s.(hart := h5), 5, instr, n - 1, out);
    LoadSlot(cfg, v, s, 4, size, r, n, out);
  }

  lemma SupportedSize(two: bool, c: Word)
    requires Served(two, c) && Transfer(c)
    ensures Aarsize(c) < 3
  {
    hide Transfer, PostExec, Aarsize, TargetOf, IsWrite;
  }

  /** Storing a general register. */
  lemma GprReadEnds(cfg: Config, v: View, s: Solo, a: Arch, r: Reg, n: nat)
    requires Slotted(cfg, v, s, 4, a, n) && Transfer(v.command) && !IsWrite(v.command)
    requires TargetOf(v.command) == Gpr(r) && !TakesA0(Two(cfg), v.command)
    ensures Ends(cfg, v, s, n, ProgramAccess(Two(cfg), v.command, a, s.data))
  {
    hide Unsupported, PostExec, Transfer, IsWrite, TargetOf, Aarsize, Ends, Overlay, Perform;
    var c := v.command;
    var size := Aarsize(c);
    SupportedSize(Two(cfg), c);
    var instr := Store(size, r, Base(Two(cfg)), DATA);
    var out := ProgramAccess(Two(cfg), c, a, s.data);
    TransferSlot(Two(cfg), c, 4);
    assert Single(Two(cfg), c, instr);
    SlotPc(cfg, s.hart, 4);
    var h5 := s.hart.(pc := Wrap(s.hart.pc + 4));
    assert SlotCoherent(cfg, 5, h5, a);
    assert s.hart.gpr[r] == a.gpr[r];
    NopsEnd(cfg, v, s.(hart := h5, data := Overlay(size, s.data, a.gpr[r])), 5, instr, n - 1, out);
    StoreSlot(cfg, v, s, 4, size, r, n, out);
  }

  /** Moving a floating-point register. */
  lemma FprEnds(cfg: Config, v: View, s: Solo, a: Arch, r: Reg, n: nat)
    requires Slotted(cfg, v, s, 4, a, n) && Transfer(v.command) && TargetOf(v.command) == Fpr(r)
    requires a.fpu && Aarsize(v.command) == 2
    ensures Ends(cfg, v, s, n, ProgramAccess(Two(cfg), v.command, a, s.data))
  {
    hide Unsupported, PostExec, Transfer, IsWrite, TargetOf, Aarsize, Ends, Perform;
    var c, write := v.command, IsWrite(v.command);
    var instr := FloatAccess(2, write, r, Base(Two(cfg)));
    var out := ProgramAccess(Two(cfg), c, a, s.data);
    TransferSlot(Two(cfg), c, 4);
    assert Single(Two(cfg), c, instr);
    SlotPc(cfg, s.hart, 4);
    var h5 := s.hart.(pc := Wrap(s.hart.pc + 4));
    if write {
      h5 := h5.(fpr := h5.fpr[r := s.data]);
      assert SlotCoherent(cfg, 5, h5, out.arch);
      NopsEnd(cfg, v, s.(hart := h5), 5, instr, n - 1, out);
      FloatLoadSlot(cfg, v, s, 4, r, n, out);
    } else {
      assert SlotCoherent(cfg, 5, h5, a);
      NopsEnd(cfg, v, s.(hart := h5, data := a.fpr[r]), 5, instr, n - 1, out);
      FloatStoreSlot(cfg, v, s, 4, r, n, out);
    }
  }

  /** Without a floating-point unit, or for an access size it lacks, the move traps. */
  lemma FprTraps(cfg: Config, v: View, s: Solo, a: Arch, r: Reg, n: nat)
    requires Slotted(cfg, v, s, 4, a, n) && Transfer(v.command) && TargetOf(v.command) == Fpr(r)
    requires !a.fpu || Aarsize(v.command) != 2
    ensures ProgramAccess(Two(cfg), v.command, a, s.data).trapped
    ensures Ends(cfg, v, s, n, ProgramAccess(Two(cfg), v.command, a, s.data))
  {
    hide Unsupported, PostExec, Transfer, IsWrite, TargetOf, Aarsize, Ends, Perform, Address, AccessOf;
    var c, w, base := v.command, SoloView(v, s.data), Base(Two(cfg));
    SupportedSize(Two(cfg), c);
    var instr := FloatAccess(Aarsize(c), IsWrite(c), r, base);
    TransferSlot(Two(cfg), c, 4);
    RunNop(cfg, w, s.hart);
    RunFloatStore(cfg, w, s.hart, r, base, DATA);
    FloatWithoutUnit(cfg, s.hart, Aarsize(c), IsWrite(c), r);
    TrapEnds(cfg, v, s, 4, instr, n, ProgramAccess(Two(cfg), c, a, s.data));
  }

  lemma FloatWithoutUnit(cfg: Config, h: Hart, size: nat, write: bool, r: Reg)
    requires ValidHart(h) && (!h.fpu || size != 2)
    ensures AccessOf(cfg, h, FloatAccess(size, write, r, Base(Two(cfg)))).NoAccess?
  {
  }

  // ---- Transfers through s0 -------------------------------------------------------------------

  /** Slots 5 to 7 of a transfer through s0: both borrowed registers are stored. */
  predicate Borrowed(cfg: Config, v: View, s: Solo, i: nat, a: Arch, n: nat) {
    && Running(cfg, v) && Served(Two(cfg), v.command) && Transfer(v.command) && 5 <= i < 8 && n >= 24 - i && !s.trapped
    && AtSlot(cfg, s.hart, i) && s.hart.debug && RestInPlace(s.hart, a) && Stored(cfg, s.hart, a)
    && s.hart.gpr[A0] == (if Two(cfg) then cfg.base else a.gpr[A0])
  }

  /** The command moves CSR `x` (or a0, through dscratch1) by way of s0. */
  predicate MovesCsr(two: bool, c: Word, x: nat) {
    && Served(two, c) && Transfer(c) && Aarsize(c) < 3
    && TransferProgram(two, c) == ThroughS0(two, Aarsize(c), IsWrite(c), x)
  }

  /** Slot 7 brings s0 back. */
  lemma RestoreEnds(cfg: Config, v: View, s: Solo, x: nat, n: nat, out: Outcome)
    requires Borrowed(cfg, v, s, 7, out.arch, n) && MovesCsr(Two(cfg), v.command, x)
    requires s.data == out.data && !out.trapped
    ensures Ends(cfg, v, s, n, out)
  {
    hide Unsupported, PostExec, Transfer, IsWrite, Aarsize, Ends, Perform, TransferProgram;
    var w := SoloView(v, s.data);
    var h8 := Perform(cfg, w, s.hart, Csrr(S0, CSR_DSCRATCH0));
    TransferSlot(Two(cfg), v.command, 7);
    RunAnyCsrr(cfg, w, s.hart, S0, CSR_DSCRATCH0);
    SlotPc(cfg, s.hart, 7);
    EpilogueEnds(cfg, v, s.(hart := h8), n - 1, out);
    SilentSlot(cfg, v, s, 7, Csrr(S0, CSR_DSCRATCH0), n, out);
  }

  /** The outcome of moving `w` into CSR `x`; a scratch register in use stands for s0 or a0. */
  function Written(two: bool, x: nat, a: Arch, w: Word, d: Word): Outcome
    requires ValidArch(a)
  {
    if x == CSR_DSCRATCH0 then Outcome(a.(gpr := a.gpr[S0 := w]), d, false)
    else if x == CSR_DSCRATCH1 then Outcome(if two then a.(gpr := a.gpr[A0 := w]) else a, d, false)
    else if x in a.csr && !ReadOnlyCsr(x) then Outcome(a.(csr := a.csr[x := w]), d, false)
    else Outcome(a, d, true)
  }

  /** Slot 6 of a write moves s0 into the target. */
  lemma WriteBackEnds(cfg: Config, v: View, s: Solo, x: nat, a: Arch, n: nat)
    requires Borrowed(cfg, v, s, 6, a, n) && MovesCsr(Two(cfg), v.command, x) && IsWrite(v.command)
    ensures Ends(cfg, v, s, n, Written(Two(cfg), x, a, s.hart.gpr[S0], s.data))
  {
    hide Unsupported, PostExec, Transfer, IsWrite, Aarsize, Ends, Perform, TransferProgram, ReadOnlyCsr;
    var w, instr, out := SoloView(v, s.data), Csrrw(0, x, S0), Written(Two(cfg), x, a, s.hart.gpr[S0], s.data);
    TransferSlot(Two(cfg), v.command, 6);
    RunAnyCsrw(cfg, w, s.hart, x, S0);
    HartIdIsReadOnly();
    if CsrWritable(s.hart, x) {
      var h7 := Perform(cfg, w, s.hart, instr);
      SlotPc(cfg, s.hart, 6);
      assert Borrowed(cfg, v, s.(hart := h7), 7, out.arch, n - 1);
      RestoreEnds(cfg, v, s.(hart := h7), x, n - 1, out);
      SilentSlot(cfg, v, s, 6, instr, n, out);
    } else {
      TrapEnds(cfg, v, s, 6, instr, n, out);
    }
  }

  lemma HartIdIsReadOnly()
    ensures ReadOnlyCsr(CSR_MHARTID) && !ReadOnlyCsr(CSR_DSCRATCH0) && !ReadOnlyCsr(CSR_DSCRATCH1)
  {
  }

  /** Slot 4 stores s0, which is stored already: nothing but the pc changes. */
  lemma StoreS0(cfg: Config, v: View, s: Solo, x: nat, a: Arch, n: nat, out: Outcome)
    requires Slotted(cfg, v, s, 4, a, n) && MovesCsr(Two(cfg), v.command, x)
    requires Ends(cfg, v, s.(hart := s.hart.(pc := Wrap(s.hart.pc + 4))), n - 1, out)
    ensures Ends(cfg, v, s, n, out)
  {
    hide Unsupported, PostExec, Transfer, IsWrite, Aarsize, Ends, Perform, TransferProgram;
    TransferSlot(Two(cfg), v.command, 4);
    RunAnyCsrw(cfg, SoloView(v, s.data), s.hart, CSR_DSCRATCH0, S0);
    assert s.hart.(dscratch0 := s.hart.gpr[S0]) == s.hart;
    SilentSlot(cfg, v, s, 4, Csrrw(0, CSR_DSCRATCH0, S0), n, out);
  }

  /** Writing through s0. */
  lemma CsrWriteEnds(cfg: Config, v: View, s: Solo, x: nat, a: Arch, n: nat)
    requires Slotted(cfg, v, s, 4, a, n) && MovesCsr(Two(cfg), v.command, x) && IsWrite(v.command)
    ensures Ends(cfg, v, s, n, Written(Two(cfg), x, a, SignExtend(Aarsize(v.command), s.data), s.data))
  {
    hide Unsupported, PostExec, Transfer, IsWrite, Aarsize, Ends, Perform, TransferProgram, SignExtend, Written;
    var size := Aarsize(v.command);
    var w, out := SignExtend(size, s.data), Written(Two(cfg), x, a, SignExtend(size, s.data), s.data);
    var h5 := s.hart.(pc := Wrap(s.hart.pc + 4));
    var h6 := SetReg(h5, S0, w).(pc := Wrap(h5.pc + 4));
    SlotPc(cfg, s.hart, 4);
    SlotPc(cfg, h5, 5);
    TransferSlot(Two(cfg), v.command, 5);
    WriteBackEnds(cfg, v, s.(hart := h6), x, a, n - 2);
    LoadSlot(cfg, v, s.(hart := h5), 5, size, S0, n - 1, out);
    StoreS0(cfg, v, s, x, a, n, out);
  }

  /** The outcome of moving CSR `x` to the data register. */
  function Fetched(x: nat, a: Arch, size: nat, d: Word): Outcome
    requires ValidArch(a)
  {
    if x == CSR_DSCRATCH0 then Outcome(a, Overlay(size, d, a.gpr[S0]), false)
    else if x == CSR_DSCRATCH1 then Outcome(a, Overlay(size, d, a.gpr[A0]), false)
    else if x == CSR_MHARTID then Outcome(a, Overlay(size, d, a.id), false)
    else if x in a.csr then Outcome(a, Overlay(size, d, a.csr[x]), false)
    else Outcome(a, d, true)
  }

  /** Slots 6 and 7 of a read: s0 goes to the data register and comes back. */
  lemma StoreBackEnds(cfg: Config, v: View, s: Solo, x: nat, n: nat, out: Outcome)
    requires Borrowed(cfg, v, s, 6, out.arch, n) && MovesCsr(Two(cfg), v.command, x) && !IsWrite(v.command)
    requires out.data == Overlay(Aarsize(v.command), s.data, s.hart.gpr[S0]) && !out.trapped
    ensures Ends(cfg, v, s, n, out)
  {
    hide Unsupported, PostExec, Transfer, IsWrite, Aarsize, Ends, Perform, TransferProgram, Overlay;
    var h7 := s.hart.(pc := Wrap(s.hart.pc + 4));
    TransferSlot(Two(cfg), v.command, 6);
    SlotPc(cfg, s.hart, 6);
    RestoreEnds(cfg, v, s.(hart := h7, data := out.data), x, n - 1, out);
    StoreSlot(cfg, v, s, 6, Aarsize(v.command), S0, n, out);
  }

  /** Reading through s0. */
  lemma CsrReadEnds(cfg: Config, v: View, s: Solo, x: nat, a: Arch, n: nat)
    requires Slotted(cfg, v, s, 4, a, n) && MovesCsr(Two(cfg), v.command, x) && !IsWrite(v.command)
    requires x == CSR_DSCRATCH1 ==> Two(cfg)
    ensures Ends(cfg, v, s, n, Fetched(x, a, Aarsize(v.command), s.data))
  {
    hide Unsupported, PostExec, Transfer, IsWrite, Aarsize, Ends, Perform, TransferProgram, Overlay;
    var out := Fetched(x, a, Aarsize(v.command), s.data);
    var h5, instr := s.hart.(pc := Wrap(s.hart.pc + 4)), Csrr(S0, x);
    SlotPc(cfg, s.hart, 4);
    TransferSlot(Two(cfg), v.command, 5);
    RunAnyCsrr(cfg, SoloView(v, s.data), h5, S0, x);
    if CsrExists(h5, x) {
      var h6 := Perform(cfg, SoloView(v, s.data), h5, instr);
      SlotPc(cfg, h5, 5);
      StoreBackEnds(cfg, v, s.(hart := h6), x, n - 2, out);
      SilentSlot(cfg, v, s.(hart := h5), 5, instr, n - 1, out);
    } else {
      TrapEnds(cfg, v, s.(hart := h5), 5, instr, n - 1, out);
    }
    StoreS0(cfg, v, s, x, a, n, out);
  }

  // ---- The whole program ---------------------------------------------------------------------

  /** From slot 4 every transfer ends as the plain interface says. */
  lemma TransferEnds(cfg: Config, v: View, s: Solo, a: Arch, n: nat)
    requires Slotted(cfg, v, s, 4, a, n) && Transfer(v.command)
    ensures Ends(cfg, v, s, n, ProgramAccess(Two(cfg), v.command, a, s.data))
  {
    hide Unsupported, PostExec, Transfer, IsWrite, Aarsize, Ends, TargetOf, Overlay, SignExtend, ThroughS0, ReadOnlyCsr, SlotCoherent;
    var c, two := v.command, Two(cfg);
    SupportedSize(Two(cfg), c);
    SlotValid(cfg, s.hart, 4, a);
    match TargetOf(c)
    case Gpr(r) =>
      if TakesA0(two, c) {
        if IsWrite(c) { CsrWriteEnds(cfg, v, s, CSR_DSCRATCH1, a, n); } else { CsrReadEnds(cfg, v, s, CSR_DSCRATCH1, a, n); }
      } else if IsWrite(c) { GprWriteEnds(cfg, v, s, a, r, n); } else { GprReadEnds(cfg, v, s, a, r, n); }
    case Fpr(r) =>
      if a.fpu && Aarsize(c) == 2 { FprEnds(cfg, v, s, a, r, n); } else { FprTraps(cfg, v, s, a, r, n); }
    case Csr(x) =>
      if IsWrite(c) { CsrWriteEnds(cfg, v, s, x, a, n); } else { CsrReadEnds(cfg, v, s, x, a, n); }
  }

  lemma SlotValid(cfg: Config, h: Hart, i: nat, a: Arch)
    requires SlotCoherent(cfg, i, h, a)
    ensures ValidHart(h) && ValidArch(a) && h.debug && h.csr == a.csr && AtSlot(cfg, h, i)
    ensures CSR_DSCRATCH0 !in a.csr && CSR_DSCRATCH1 !in a.csr && CSR_MHARTID !in a.csr
  {
  }

  /** The first four instructions of a transfer: with a second scratch register a0 is saved and
      loaded with the base address. */
  function PrologueInstr(two: bool, i: nat): Instr
    requires i < 4
  {
    if !two then NOP
    else if i == 0 then Csrrw(0, CSR_DSCRATCH1, A0)
    else if i == 1 then Auipc(A0, 0)
    else if i == 2 then Srli(A0, A0, 12)
    else Slli(A0, A0, 12)
  }

  lemma PrologueSlot(cfg: Config, v: View, h: Hart, i: nat, a: Arch)
    requires Running(cfg, v) && SlotCoherent(cfg, i, h, a) && i < 4
    ensures SlotCoherent(cfg, i + 1, Perform(cfg, v, h, PrologueInstr(Two(cfg), i)), a)
  {
    hide Perform;
    SlotPc(cfg, h, i);
    RunNop(cfg, v, h);
    RunAnyCsrw(cfg, v, h, CSR_DSCRATCH1, A0);
    RunBaseSteps(cfg, v, h);
    WindowArithmetic(cfg, ABSTRACT_CMD + 4);
    HartIdIsReadOnly();
  }

  lemma {:induction false} PrologueEnds(cfg: Config, v: View, s: Solo, i: nat, a: Arch, n: nat)
    requires Slotted(cfg, v, s, i, a, n) && Transfer(v.command) && i <= 4
    ensures Ends(cfg, v, s, n, ProgramAccess(Two(cfg), v.command, a, s.data))
    decreases 4 - i
  {
    hide Unsupported, PostExec, Transfer, Ends, SlotCoherent, ProgramAccess, Perform;
    SlotValid(cfg, s.hart, i, a);
    if i == 4 {
      TransferEnds(cfg, v, s, a, n);
    } else {
      var instr := PrologueInstr(Two(cfg), i);
      var h := Perform(cfg, SoloView(v, s.data), s.hart, instr);
      PrologueSlot(cfg, SoloView(v, s.data), s.hart, i, a);
      PrologueEnds(cfg, v, s.(hart := h), i + 1, a, n - 1);
      SilentSlot(cfg, v, s, i, instr, n, ProgramAccess(Two(cfg), v.command, a, s.data));
    }
  }

  /** A plain command's first slot, whether or not the compiler supports the command. */
  predicate Started(cfg: Config, v: View, s: Solo, a: Arch, n: nat) {
    Running(cfg, v) && Plain(Two(cfg), v.command) && SlotCoherent(cfg, 0, s.hart, a) && n >= 24 && !s.trapped
  }

  /** From its first slot the program of every plain command ends as the plain interface says. */
  lemma ProgramEnds(cfg: Config, v: View, s: Solo, a: Arch, n: nat)
    requires Started(cfg, v, s, a, n)
    ensures Ends(cfg, v, s, n, ProgramAccess(Two(cfg), v.command, a, s.data))
  {
    if Unsupported(v.command) {
      RefusedEnds(cfg, v, s, a, n);
    } else if Transfer(v.command) {
      assert Slotted(cfg, v, s, 0, a, n);
      hide *;
      PrologueEnds(cfg, v, s, 0, a, n);
    } else {
      hide Unsupported, PostExec, Transfer, Ends, Perform;
      RunNop(cfg, SoloView(v, s.data), s.hart);
      TrapEnds(cfg, v, s, 0, Illegal, n, ProgramAccess(Two(cfg), v.command, a, s.data));
    }
  }

  /** An unsupported command breaks straight back into the park loop. */
  lemma RefusedEnds(cfg: Config, v: View, s: Solo, a: Arch, n: nat)
    requires Started(cfg, v, s, a, n) && Unsupported(v.command)
    ensures Ends(cfg, v, s, n, ProgramAccess(Two(cfg), v.command, a, s.data))
  {
    hide Unsupported, PostExec, Transfer, Ends, Perform, AddressOf;
    var w, out := SoloView(v, s.data), ProgramAccess(Two(cfg), v.command, a, s.data);
    RunPlain(cfg, w, s.hart);
    EntryAddress(cfg);
    var h := Perform(cfg, w, s.hart, Ebreak);
    assert Coherent(cfg, EntryVector, h, a);
    RomEnds(cfg, v, EntryVector, s.(hart := h), n - 1, out);
    SilentSlot(cfg, v, s, 0, Ebreak, n, out);
  }

  // ---- From the GOING report to the program -----------------------------------------------------

  /** The word at the jump target sends the hart to the first slot. */
  lemma WhereToJumps(cfg: Config, v: View, h: Hart)
    requires Running(cfg, v) && Plain(Two(cfg), v.command) && ValidHart(h) && h.pc == cfg.base + WHERETO
    ensures Instruction(cfg, v, h) == Jal(0, ABSTRACT_CMD - WHERETO)
    ensures Wrap(h.pc + (ABSTRACT_CMD - WHERETO)) == cfg.base + ABSTRACT_CMD
  {
    hide Decode, CommandWords, Unsupported, PostExec, EncodeJal;
    DecodeEncodedJal(0, ABSTRACT_CMD - WHERETO);
    WindowArithmetic(cfg, ABSTRACT_CMD);
  }

  lemma WhereToEnds(cfg: Config, v: View, s: Solo, a: Arch, n: nat)
    requires Running(cfg, v) && Plain(Two(cfg), v.command) && !s.trapped && n >= 25
    requires s.hart.pc == cfg.base + WHERETO && s.hart.debug && InProgramEntry(cfg, s.hart, a)
    ensures Ends(cfg, v, s, n, ProgramAccess(Two(cfg), v.command, a, s.data))
  {
    hide Ends, Instruction, Perform, ProgramAccess, Unsupported, PostExec;
    var w := SoloView(v, s.data);
    var t := Solo(s.hart.(pc := cfg.base + ABSTRACT_CMD), s.data, false);
    WhereToJumps(cfg, w, s.hart);
    RunJal(cfg, w, s.hart, ABSTRACT_CMD - WHERETO);
    ProgramEnds(cfg, v, t, a, n - 1);
    NotAtReport(cfg, s.hart);
    EndsByStep(cfg, v, s, n, ProgramAccess(Two(cfg), v.command, a, s.data));
  }

  lemma NotAtReport(cfg: Config, h: Hart)
    requires h.pc == cfg.base + WHERETO
    ensures !At(cfg, h, StoreHalted)
  {
  }

  /** Registers as the going path leaves them: in place, and still stored. */
  predicate InProgramEntry(cfg: Config, h: Hart, a: Arch) {
    RestInPlace(h, a) && h.gpr[S0] == a.gpr[S0] && h.gpr[A0] == a.gpr[A0] && Stored(cfg, h, a)
  }

  lemma JumpIntoProgram(cfg: Config, v: View, h: Hart, a: Arch)
    requires Running(cfg, v) && Ready(cfg, v, GoJump, h, a)
    ensures var h' := StepHart(cfg, v, h);
      h'.pc == cfg.base + WHERETO && InProgramEntry(cfg, h', a) && h'.debug == h.debug
    ensures RequestOf(cfg, v, h).NoAccess?
  {
    hide Perform, AddressOf, Instruction;
    FetchRom(cfg, v, h, GoJump);
    StepExits(cfg, v, GoJump, h, a);
    StepKeepsValid(cfg, v, h, Listing(Two(cfg), GoJump));
  }

  lemma StepKeepsValid(cfg: Config, v: View, h: Hart, i: Instr)
    requires ValidView(v) && ValidHart(h)
    ensures ValidHart(Perform(cfg, v, h, i))
  {
    hide Execute, ValidHart, AccessOf, LoadData;
    ExecuteKeepsValid(cfg, h, i, LoadData(cfg, v, AccessOf(cfg, h, i)));
  }

  predicate GoingPath(l: Loc) {
    l.GoRestoreA0? || l.GoRestoreS0? || l.GoJump?
  }

  function GoingBudget(l: Loc): nat {
    if l.GoJump? then 26 else if l.GoRestoreS0? then 27 else 28
  }

  lemma CoherentArch(cfg: Config, l: Loc, h: Hart, a: Arch)
    requires Coherent(cfg, l, h, a)
    ensures ValidArch(a)
  {
  }

  /** From the moment a hart has reported GOING: it restores its registers, jumps into the
      program, and by its next HALTED report exactly the plain access has happened. */
  lemma {:induction false} CommandRefinesAccess(cfg: Config, v: View, l: Loc, s: Solo, a: Arch, n: nat)
    requires Running(cfg, v) && Plain(Two(cfg), v.command) && !s.trapped && s.hart.debug
    requires GoingPath(l) && n >= GoingBudget(l) && Ready(cfg, SoloView(v, s.data), l, s.hart, a)
    ensures Ends(cfg, v, s, n, ProgramAccess(Two(cfg), v.command, a, s.data))
    decreases n
  {
    hide Ends, Coherent, StepHart, ProgramAccess, ValidArch, Unsupported, PostExec, AddressOf, RequestOf, InProgramEntry, Listing;
    CoherentValid(cfg, l, s.hart, a);
    CoherentArch(cfg, l, s.hart, a);
    var w, two, out := SoloView(v, s.data), Two(cfg), ProgramAccess(Two(cfg), v.command, a, s.data);
    AtOnePoint(cfg, s.hart, l, StoreHalted);
    PointIsSteady(cfg, s.hart, l);
    if l.GoJump? {
      JumpIntoProgram(cfg, w, s.hart, a);
      WhereToEnds(cfg, v, SoloStep(cfg, v, s), a, n - 1);
    } else {
      StepInRom(cfg, w, l, s.hart, a);
      CommandRefinesAccess(cfg, v, Following(two, l), SoloStep(cfg, v, s), a, n - 1);
    }
    EndsByStep(cfg, v, s, n, out);
  }
}
