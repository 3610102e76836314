/** A hart running a generated program by itself, and what the program amounts to: a plain
    read or write of one register of the halted hart. */
module CommandRuns {
  import opened Words
  import opened Riscv
  import opened DebugRom
  import opened Harts
  import opened AbstractCommands
  import opened DebugMemory
  import opened ParkLoop

  // ---- The plain interface ---------------------------------------------------------------

  datatype Outcome = Outcome(arch: Arch, data: Word, trapped: bool)

  function GprAccess(c: Word, a: Arch, r: Reg, d: Word): Outcome
    requires ValidArch(a)
  {
    if !IsWrite(c) then Outcome(a, Overlay(Aarsize(c), d, a.gpr[r]), false)
    else if r == 0 then Outcome(a, d, false)
    else Outcome(a.(gpr := a.gpr[r := SignExtend(Aarsize(c), d)]), d, false)
  }

  function FprAccess(c: Word, a: Arch, r: Reg, d: Word): Outcome
    requires ValidArch(a)
  {
    if !a.fpu || Aarsize(c) != 2 then Outcome(a, d, true)
    else if IsWrite(c) then Outcome(a.(fpr := a.fpr[r := d]), d, false)
    else Outcome(a, a.fpr[r], false)
  }

  function CsrAccess(c: Word, a: Arch, n: nat, d: Word): Outcome {
    if IsWrite(c) then
      if n in a.csr && !ReadOnlyCsr(n) then Outcome(a.(csr := a.csr[n := SignExtend(Aarsize(c), d)]), d, false)
      else Outcome(a, d, true)
    else if n == CSR_MHARTID then Outcome(a, Overlay(Aarsize(c), d, a.id), false)
    else if n in a.csr then Outcome(a, Overlay(Aarsize(c), d, a.csr[n]), false)
    else Outcome(a, d, true)
  }

  predicate TargetsScratch(c: Word) {
    TargetOf(c) == Csr(CSR_DSCRATCH0) || TargetOf(c) == Csr(CSR_DSCRATCH1)
  }

  /** Reading or writing one register of a halted hart through one data register. The scratch
      registers belong to the debug module: writing one should not touch the program. */
  function PlainAccess(c: Word, a: Arch, d: Word): Outcome
    requires ValidArch(a)
  {
    if Unsupported(c) then Outcome(a, d, false)
    else if !Transfer(c) then Outcome(a, d, true)
    else match TargetOf(c)
      case Gpr(r) => GprAccess(c, a, r, d)
      case Fpr(r) => FprAccess(c, a, r, d)
      case Csr(n) => if TargetsScratch(c) then Outcome(a, d, false) else CsrAccess(c, a, n, d)
  }

  /** What the generated program does: the scratch registers it parks s0 and a0 in are aliases
      of them. */
  function ProgramAccess(two: bool, c: Word, a: Arch, d: Word): Outcome
    requires ValidArch(a)
  {
    if Unsupported(c) || !Transfer(c) then PlainAccess(c, a, d)
    else if TargetOf(c) == Csr(CSR_DSCRATCH0) then GprAccess(c, a, S0, d)
    else if two && TargetOf(c) == Csr(CSR_DSCRATCH1) then GprAccess(c, a, A0, d)
    else PlainAccess(c, a, d)
  }

  /** A command that aims at a scratch register the program borrows. */
  predicate HitsBorrowed(two: bool, c: Word) {
    TargetOf(c) == Csr(CSR_DSCRATCH0) || (two && TargetOf(c) == Csr(CSR_DSCRATCH1))
  }

  /** The program is the plain interface except for writes to a scratch register in use, which
      land in s0 or a0 instead. */
  lemma ProgramIsPlainAccess(two: bool, c: Word, a: Arch, d: Word)
    requires ValidArch(a)
    ensures !HitsBorrowed(two, c) ==> ProgramAccess(two, c, a, d) == PlainAccess(c, a, d)
    ensures var r := if TargetOf(c) == Csr(CSR_DSCRATCH0) then S0 else A0;
      ProgramAccess(two, c, a, d).arch == PlainAccess(c, a, d).arch
      <==> !(HitsBorrowed(two, c) && !Unsupported(c) && Transfer(c) && IsWrite(c) && a.gpr[r] != SignExtend(Aarsize(c), d))
  {
    hide Unsupported, Transfer, IsWrite, Aarsize, SignExtend, Overlay;
    var w := SignExtend(Aarsize(c), d);
    assert a.gpr[S0] == w ==> a.gpr[S0 := w] == a.gpr;
    assert a.gpr[A0] == w ==> a.gpr[A0 := w] == a.gpr;
    assert a.gpr[S0 := w][S0] == w && a.gpr[A0 := w][A0] == w;
  }

  /** A command that traps leaves every register and the data register as they were. */
  lemma FailedAccessIsAtomic(two: bool, c: Word, a: Arch, d: Word)
    requires ValidArch(a) && ProgramAccess(two, c, a, d).trapped
    ensures ProgramAccess(two, c, a, d).arch == a && ProgramAccess(two, c, a, d).data == d
  {
    hide Unsupported, Transfer, IsWrite, Aarsize, SignExtend, Overlay;
  }

  // ---- A hart alone with a frozen controller -----------------------------------------------

  datatype Solo = Solo(hart: Hart, data: Word, trapped: bool)

  function SoloView(v: View, d: Word): View
    requires ValidView(v)
  {
    v.(data := v.data[0 := d])
  }

  function DataAfter(d: Word, a: Access): Word {
    if a.WriteAt? && DATA <= a.offset < DATA + 8 && |a.be| == 4 then Merge(d, a.wdata, a.be) else d
  }

  predicate IsWriteTo(a: Access, offset: nat) {
    a.WriteAt? && a.offset == offset
  }

  function SoloRequest(cfg: Config, v: View, s: Solo): Access
    requires ValidView(v) && ValidHart(s.hart)
  {
    RequestOf(cfg, SoloView(v, s.data), s.hart)
  }

  function SoloStep(cfg: Config, v: View, s: Solo): Solo
    requires ValidView(v) && ValidHart(s.hart)
  {
    Solo(StepHart(cfg, SoloView(v, s.data), s.hart),
         DataAfter(s.data, SoloRequest(cfg, v, s)),
         s.trapped || IsWriteTo(SoloRequest(cfg, v, s), EXCEPTION))
  }

  /** While it runs a program a hart reports neither HALTED nor GOING nor RESUMING. */
  predicate Unreported(a: Access) {
    !IsWriteTo(a, HALTED) && !IsWriteTo(a, GOING) && !IsWriteTo(a, RESUMING)
  }

  /** Reads that do not depend on the registered row or on pending resume requests. */
  predicate SteadyOffset(offset: int) {
    offset == WHERETO || ABSTRACT_CMD <= offset < DATA + 8 || FLAGS <= offset < 0x1000
  }

  /** The hart fetches and reads only what a running command keeps fixed, and reports nothing. */
  predicate Quiet(cfg: Config, h: Hart, a: Access) {
    Unreported(a) && SteadyOffset(h.pc - cfg.base) && (a.ReadAt? ==> SteadyOffset(a.offset))
  }

  /** The hart, left alone, reaches its next HALTED report within `n` steps without any other
      report, and by then the access described by `out` has taken place, no more and no less. */
  predicate Ends(cfg: Config, v: View, s: Solo, n: nat, out: Outcome)
    requires ValidView(v)
    decreases n
  {
    ValidHart(s.hart) && s.hart.debug
    && if At(cfg, s.hart, StoreHalted) then
         Coherent(cfg, StoreHalted, s.hart, out.arch) && s.data == out.data && s.trapped == out.trapped
       else
         n > 0 && Quiet(cfg, s.hart, SoloRequest(cfg, v, s)) && Ends(cfg, v, SoloStep(cfg, v, s), n - 1, out)
  }

  // ---- From the ROM to the report -----------------------------------------------------------

  /** Points on the way back to the park loop, with the steps left to the HALTED report. */
  function StepsLeft(l: Loc): nat {
    match l
    case StoreHalted => 0 case LoopHartId => 1 case BaseSlli => 2 case BaseSrli => 3 case BaseAuipc => 4
    case SaveA0 => 5 case SaveS0 => 6 case EntryFence => 7 case EntryVector => 8
    case ExcEbreak => 9 case ExcRestoreS0 => 10 case ExcRestoreA0 => 11 case StoreException => 12
    case ExcSlli => 13 case ExcSrli => 14 case ExcAuipc => 15 case ExceptionVector => 16
    case _ => 99
  }

  predicate BeforeReport(l: Loc) {
    StepsLeft(l) >= 12
  }

  lemma StepsLeftDecreases(two: bool, l: Loc, s0: Word)
    requires Exists(two, l) && 0 < StepsLeft(l) < 99
    ensures Inner(two, l) && StepsLeft(NextLoc(two, l, s0)) < StepsLeft(l)
    ensures BeforeReport(NextLoc(two, l, s0)) <==> BeforeReport(l) && !l.StoreException?
  {
  }

  lemma ReportsOnTheWay(l: Loc, id: Word)
    requires 0 < StepsLeft(l) < 99
    ensures Unreported(AccessAt(l, id)) && DataAfter(0, AccessAt(l, id)) == 0
    ensures IsWriteTo(AccessAt(l, id), EXCEPTION) <==> l.StoreException?
    ensures AccessAt(l, id).WriteAt? ==> l.StoreException?
    ensures !AccessAt(l, id).ReadAt?
  {
  }

  /** One step on the way back. */
  lemma RomStep(cfg: Config, v: View, l: Loc, s: Solo, a: Arch)
    requires ValidView(v) && v.sel < 1024 && Ready(cfg, SoloView(v, s.data), l, s.hart, a)
    requires s.hart.debug && 0 < StepsLeft(l) < 99
    ensures ValidHart(s.hart) && !At(cfg, s.hart, StoreHalted) && Quiet(cfg, s.hart, SoloRequest(cfg, v, s))
    ensures var t, next := SoloStep(cfg, v, s), NextLoc(Two(cfg), l, s.hart.gpr[S0]);
      && Ready(cfg, SoloView(v, t.data), next, t.hart, a) && t.hart.debug
      && t.data == s.data && t.trapped == (s.trapped || l.StoreException?)
      && StepsLeft(next) < StepsLeft(l) && (BeforeReport(next) <==> BeforeReport(l) && !l.StoreException?)
  {
    hide Coherent, AddressOf, RequestOf, StepHart, AccessAt, NextLoc, Listing, StepsLeft, BeforeReport, At, ValidHart, SteadyOffset;
    CoherentValid(cfg, l, s.hart, a);
    HartFacts(cfg, s.hart, l);
    StepsLeftDecreases(Two(cfg), l, s.hart.gpr[S0]);
    StepInRom(cfg, SoloView(v, s.data), l, s.hart, a);
    StepsEnd(l);
    ReportsOnTheWay(l, s.hart.id);
    PointIsSteady(cfg, s.hart, l);
    AtOnePoint(cfg, s.hart, l, StoreHalted);
  }

  lemma {:induction false} RomEnds(cfg: Config, v: View, l: Loc, s: Solo, n: nat, out: Outcome)
    requires ValidView(v) && v.sel < 1024 && Ready(cfg, SoloView(v, s.data), l, s.hart, out.arch)
    requires s.hart.debug && StepsLeft(l) < 99 && StepsLeft(l) <= n
    requires s.data == out.data && (if BeforeReport(l) then out.trapped else s.trapped == out.trapped)
    ensures Ends(cfg, v, s, n, out)
    decreases n
  {
    hide Coherent, SoloRequest, SoloStep, At, NextLoc, Quiet, ValidHart, BeforeReport, StepsLeft;
    StepsEnd(l);
    CoherentValid(cfg, l, s.hart, out.arch);
    if !l.StoreHalted? {
      RomStep(cfg, v, l, s, out.arch);
      RomEnds(cfg, v, NextLoc(Two(cfg), l, s.hart.gpr[S0]), SoloStep(cfg, v, s), n - 1, out);
    }
  }

  lemma StepsEnd(l: Loc)
    ensures l.StoreHalted? ==> StepsLeft(l) == 0 && !BeforeReport(l)
    ensures !l.StoreHalted? ==> StepsLeft(l) > 0
    ensures l.StoreException? ==> BeforeReport(l)
  {
  }

  lemma PointIsSteady(cfg: Config, h: Hart, l: Loc)
    requires At(cfg, h, l)
    ensures SteadyOffset(h.pc - cfg.base)
  {
    hide AddressOf;
    AddressInWindow(Two(cfg), l);
    assert AddressOf(Two(cfg), l) >= ROM by { AddressFromRom(Two(cfg), l); }
  }

  lemma AddressFromRom(two: bool, l: Loc)
    ensures AddressOf(two, l) >= ROM
  {
    hide IndexOf;
  }

  /** Program points have distinct addresses. */
  lemma AtOnePoint(cfg: Config, h: Hart, l: Loc, k: Loc)
    requires At(cfg, h, l) && Exists(Two(cfg), k) && l != k
    ensures !At(cfg, h, k)
  {
    hide AddressOf, LocAt;
    LocAtAddressOf(Two(cfg), l);
    LocAtAddressOf(Two(cfg), k);
  }

  // ---- The program in its slots --------------------------------------------------------------

  predicate AtSlot(cfg: Config, h: Hart, i: nat) {
    i < 10 && h.pc == cfg.base + ABSTRACT_CMD + 4 * i
  }

  lemma SlotIsNoPoint(cfg: Config, h: Hart, i: nat)
    requires AtSlot(cfg, h, i)
    ensures !At(cfg, h, StoreHalted) && SteadyOffset(h.pc - cfg.base)
  {
  }

  lemma FetchSlot(cfg: Config, v: View, h: Hart, i: nat)
    requires ValidView(v) && AtSlot(cfg, h, i)
    ensures Instruction(cfg, v, h) == Program(Two(cfg), v.command, i)
  {
    hide Decode, CommandWords, Program, ReadWord;
    ReadSlot(cfg, v, i);
    CommandWordsDecode(Two(cfg), v.command, i);
  }

  lemma SlotPc(cfg: Config, h: Hart, i: nat)
    requires ValidConfig(cfg) && AtSlot(cfg, h, i)
    ensures Wrap(h.pc + 4) == cfg.base + ABSTRACT_CMD + 4 * (i + 1)
  {
    WindowArithmetic(cfg, ABSTRACT_CMD + 4 * (i + 1));
  }

  /** Between slots s0 is back in place and a0 is somewhere between its save and its restore. */
  predicate SlotCoherent(cfg: Config, i: nat, h: Hart, a: Arch) {
    var two := Two(cfg);
    && AtSlot(cfg, h, i) && h.debug
    && RestInPlace(h, a) && h.gpr[S0] == a.gpr[S0]
    && (!two || i <= 1 || i == 9 ==> h.gpr[A0] == a.gpr[A0])
    && (i <= 4 ==> h.dscratch0 == a.gpr[S0]) && (two && i <= 8 ==> h.dscratch1 == a.gpr[A0])
    && (two && i == 2 ==> h.gpr[A0] == cfg.base + ABSTRACT_CMD + 4)
    && (two && i == 3 ==> h.gpr[A0] == cfg.base / 0x1000)
    && (two && 4 <= i <= 8 ==> h.gpr[A0] == cfg.base)
  }

  /** A state in which a trap is harmless: both borrowed registers are stored. */
  predicate Stored(cfg: Config, h: Hart, a: Arch)
    requires ValidArch(a)
  {
    h.dscratch0 == a.gpr[S0] && (Two(cfg) ==> h.dscratch1 == a.gpr[A0])
  }

  lemma TrapIsCoherent(cfg: Config, h: Hart, a: Arch)
    requires ValidConfig(cfg) && RestInPlace(h, a) && Stored(cfg, h, a)
    requires !Two(cfg) ==> h.gpr[A0] == a.gpr[A0]
    ensures At(cfg, Trap(cfg, h), ExceptionVector) && Coherent(cfg, ExceptionVector, Trap(cfg, h), a)
  {
    EntryAddress(cfg);
  }

  /** Adding one silent step in front. */
  lemma EndsByStep(cfg: Config, v: View, s: Solo, n: nat, out: Outcome)
    requires ValidView(v) && ValidHart(s.hart) && s.hart.debug && n > 0 && !At(cfg, s.hart, StoreHalted)
    requires Quiet(cfg, s.hart, SoloRequest(cfg, v, s)) && Ends(cfg, v, SoloStep(cfg, v, s), n - 1, out)
    ensures Ends(cfg, v, s, n, out)
  {
  }

  /** What a hart at a slot does: fetch, then perform. */
  lemma SlotStep(cfg: Config, v: View, s: Solo, i: nat, instr: Instr)
    requires ValidView(v) && ValidHart(s.hart) && AtSlot(cfg, s.hart, i)
    requires Program(Two(cfg), v.command, i) == instr
    ensures SoloRequest(cfg, v, s) == AccessOf(cfg, s.hart, instr)
    ensures var a := AccessOf(cfg, s.hart, instr);
      SoloStep(cfg, v, s) == Solo(Perform(cfg, SoloView(v, s.data), s.hart, instr), DataAfter(s.data, a),
                                  s.trapped || IsWriteTo(a, EXCEPTION))
    ensures !At(cfg, s.hart, StoreHalted) && SteadyOffset(s.hart.pc - cfg.base)
  {
    hide Instruction, Program, AccessOf, Perform, At;
    SlotIsNoPoint(cfg, s.hart, i);
    FetchSlot(cfg, SoloView(v, s.data), s.hart, i);
  }

  predicate RegisterOnly(i: Instr) {
    i.Addi? || i.Auipc? || i.Srli? || i.Slli? || i.Csrr? || i.Csrrw? || i.Ebreak? || i.Illegal?
  }

  /** One slot: its instruction is performed, its access takes effect on the data register. */
  lemma AnySlot(cfg: Config, v: View, s: Solo, i: nat, instr: Instr, access: Access, h': Hart, n: nat, out: Outcome)
    requires ValidView(v) && ValidHart(s.hart) && AtSlot(cfg, s.hart, i) && s.hart.debug && n > 0
    requires Program(Two(cfg), v.command, i) == instr && AccessOf(cfg, s.hart, instr) == access
    requires Perform(cfg, SoloView(v, s.data), s.hart, instr) == h'
    requires Unreported(access) && !IsWriteTo(access, EXCEPTION) && (access.ReadAt? ==> SteadyOffset(access.offset))
    requires Ends(cfg, v, Solo(h', DataAfter(s.data, access), s.trapped), n - 1, out)
    ensures Ends(cfg, v, s, n, out)
  {
    hide Program, Perform, At, Ends, AccessOf, SoloStep, SoloRequest, Merge, AtSlot, ValidHart;
    SlotStep(cfg, v, s, i, instr);
    EndsByStep(cfg, v, s, n, out);
  }

  /** A slot whose instruction makes no bus access changes only the hart. */
  lemma SilentSlot(cfg: Config, v: View, s: Solo, i: nat, instr: Instr, n: nat, out: Outcome)
    requires ValidView(v) && ValidHart(s.hart) && AtSlot(cfg, s.hart, i) && s.hart.debug && n > 0
    requires Program(Two(cfg), v.command, i) == instr && RegisterOnly(instr)
    requires Ends(cfg, v, Solo(Perform(cfg, SoloView(v, s.data), s.hart, instr), s.data, s.trapped), n - 1, out)
    ensures Ends(cfg, v, s, n, out)
  {
    hide Program, Perform, At, Ends, Address, Reachable, AtSlot, ValidHart;
    AnySlot(cfg, v, s, i, instr, NoAccess, Perform(cfg, SoloView(v, s.data), s.hart, instr), n, out);
  }

  // Instructions of the program

  lemma RunNop(cfg: Config, v: View, h: Hart)
    requires ValidView(v) && ValidHart(h)
    ensures Perform(cfg, v, h, NOP) == h.(pc := Wrap(h.pc + 4))
    ensures Perform(cfg, v, h, Illegal) == Trap(cfg, h)
  {
  }

  lemma RunAnyCsrr(cfg: Config, v: View, h: Hart, rd: Reg, a: nat)
    requires ValidView(v) && ValidHart(h) && rd != 0
    ensures Perform(cfg, v, h, Csrr(rd, a))
         == if CsrExists(h, a) then h.(gpr := h.gpr[rd := CsrRead(h, a)], pc := Wrap(h.pc + 4)) else Trap(cfg, h)
  {
  }

  lemma RunAnyCsrw(cfg: Config, v: View, h: Hart, a: nat, rs1: Reg)
    requires ValidView(v) && ValidHart(h)
    ensures Perform(cfg, v, h, Csrrw(0, a, rs1))
         == if CsrWritable(h, a) then CsrWrite(h, a, h.gpr[rs1]).(pc := Wrap(h.pc + 4)) else Trap(cfg, h)
  {
  }

  lemma RunFloatLoad(cfg: Config, v: View, h: Hart, r: Reg, rs1: Reg, imm: nat, offset: nat)
    requires ValidView(v) && ValidHart(h) && AccessOf(cfg, h, FLoad(r, rs1, imm)) == ReadAt(offset)
    ensures Perform(cfg, v, h, FLoad(r, rs1, imm)) == h.(fpr := h.fpr[r := ReadWord(cfg, v, offset)], pc := Wrap(h.pc + 4))
  {
    hide Address, Reachable, ReadWord;
  }

  lemma RunFloatStore(cfg: Config, v: View, h: Hart, r: Reg, rs1: Reg, imm: nat)
    requires ValidView(v) && ValidHart(h)
    ensures Perform(cfg, v, h, FStore(r, rs1, imm))
         == if AccessOf(cfg, h, FStore(r, rs1, imm)).NoAccess? then Trap(cfg, h) else h.(pc := Wrap(h.pc + 4))
    ensures AccessOf(cfg, h, FLoad(r, rs1, imm)).NoAccess? ==> Perform(cfg, v, h, FLoad(r, rs1, imm)) == Trap(cfg, h)
  {
    hide Address, Reachable, ReadWord;
  }

  // ---- Prologue and epilogue ------------------------------------------------------------------

  /** From slot 8 the hart restores a0 and breaks back into the park loop. */
  lemma EpilogueEnds(cfg: Config, v: View, s: Solo, n: nat, out: Outcome)
    requires ValidConfig(cfg) && ValidView(v) && v.sel < 1024
    requires !Unsupported(v.command) && !PostExec(v.command)
    requires SlotCoherent(cfg, 8, s.hart, out.arch) && s.data == out.data && s.trapped == out.trapped && n >= 10
    ensures Ends(cfg, v, s, n, out)
  {
    hide Unsupported, PostExec, Ends, Perform, AddressOf, TransferProgram, Transfer;
    var two, w, h := Two(cfg), SoloView(v, s.data), s.hart;
    var i8 := if two then Csrr(A0, CSR_DSCRATCH1) else NOP;
    var h9 := Perform(cfg, w, h, i8);
    SlotPc(cfg, h, 8);
    RunNop(cfg, w, h);
    RunAnyCsrr(cfg, w, h, A0, CSR_DSCRATCH1);
    assert SlotCoherent(cfg, 9, h9, out.arch);
    RunPlain(cfg, w, h9);
    EntryAddress(cfg);
    var h10 := Perform(cfg, w, h9, Ebreak);
    assert Coherent(cfg, EntryVector, h10, out.arch);
    RomEnds(cfg, v, EntryVector, Solo(h10, s.data, s.trapped), n - 2, out);
    SilentSlot(cfg, v, Solo(h9, s.data, s.trapped), 9, Ebreak, n - 1, out);
    SilentSlot(cfg, v, s, 8, i8, n, out);
  }

  /** A trap out of any slot ends in the park loop with the command's registers intact. */
  lemma TrapEnds(cfg: Config, v: View, s: Solo, i: nat, instr: Instr, n: nat, out: Outcome)
    requires ValidConfig(cfg) && ValidView(v) && v.sel < 1024
    requires AtSlot(cfg, s.hart, i) && s.hart.debug && RestInPlace(s.hart, out.arch) && Stored(cfg, s.hart, out.arch)
    requires !Two(cfg) ==> s.hart.gpr[A0] == out.arch.gpr[A0]
    requires Program(Two(cfg), v.command, i) == instr
    requires Perform(cfg, SoloView(v, s.data), s.hart, instr) == Trap(cfg, s.hart) && AccessOf(cfg, s.hart, instr).NoAccess?
    requires s.data == out.data && out.trapped && n >= 17
    ensures Ends(cfg, v, s, n, out)
  {
    hide Program, Perform, Ends, AddressOf, AccessOf, At, Coherent, SoloStep, SoloRequest;
    var t := Solo(Trap(cfg, s.hart), s.data, s.trapped);
    TrapIsCoherent(cfg, s.hart, out.arch);
    RomEnds(cfg, v, ExceptionVector, t, n - 1, out);
    SlotStep(cfg, v, s, i, instr);
    assert SoloStep(cfg, v, s) == t;
    EndsByStep(cfg, v, s, n, out);
  }

  // ---- Moving data ------------------------------------------------------------------------------

  /** Byte enables of a store to the data register keep the bytes the access size leaves out. */
  lemma MergeIsOverlay(size: nat, d: Word, x: Word)
    requires size < 3
    ensures Merge(d, x, ByteEnable(size, 0)) == Overlay(size, d, x)
  {
    PackOfLanes(x);
    PackOfLanes(d);
    SplitAt(x / 0x100, Lane(x, 0), 0x100);
    SplitAt(x / 0x1_0000, Lane(x, 0) + 0x100 * Lane(x, 1), 0x1_0000);
    hide Lane;
  }

  lemma ExtractLowest(size: nat, d: Word)
    requires size < 3
    ensures Extract(size, d, 0) == SignExtend(size, d)
  {
  }

  /** The data register through the base register: where the program's loads and stores go. */
  lemma LoadAccess(cfg: Config, h: Hart, size: nat, r: Reg)
    requires ValidConfig(cfg) && ValidHart(h) && size < 3 && (Two(cfg) ==> h.gpr[A0] == cfg.base)
    ensures Address(h, Base(Two(cfg)), DATA) % 4 == 0
    ensures AccessOf(cfg, h, Load(size, r, Base(Two(cfg)), DATA)) == ReadAt(DATA)
    ensures AccessOf(cfg, h, FLoad(r, Base(Two(cfg)), DATA)) == if h.fpu then ReadAt(DATA) else NoAccess
  {
    hide Address;
    BaseAddress(cfg, h, DATA);
  }

  /** A word-aligned address is aligned for every size. */
  lemma SmallerReachable(cfg: Config, a: Word, size: nat)
    requires Reachable(cfg, a, 2) && size < 3
    ensures Reachable(cfg, a, size)
  {
  }

  lemma StoreAccess(cfg: Config, h: Hart, size: nat, r: Reg)
    requires ValidConfig(cfg) && ValidHart(h) && size < 3 && (Two(cfg) ==> h.gpr[A0] == cfg.base)
    ensures AccessOf(cfg, h, Store(size, r, Base(Two(cfg)), DATA)) == WriteAt(DATA, h.gpr[r], ByteEnable(size, 0))
    ensures AccessOf(cfg, h, FStore(r, Base(Two(cfg)), DATA))
         == if h.fpu then WriteAt(DATA, h.fpr[r], ByteEnable(2, 0)) else NoAccess
  {
    var base := Base(Two(cfg));
    hide Address, Reachable;
    BaseAddress(cfg, h, DATA);
    assert Reachable(cfg, Address(h, base, DATA), size) by { SmallerReachable(cfg, Address(h, base, DATA), size); }
    assert Shifted(h.gpr[r], 0) == h.gpr[r];
  }

  lemma ReadDataRegister(cfg: Config, v: View, d: Word)
    requires ValidView(v)
    ensures ReadWord(cfg, SoloView(v, d), DATA) == d
  {
    hide RomRow, CommandWords;
  }

  lemma StoreEffect(d: Word, x: Word, size: nat)
    requires size < 3
    ensures DataAfter(d, WriteAt(DATA, x, ByteEnable(size, 0))) == Overlay(size, d, x)
  {
    hide Merge, Overlay;
    MergeIsOverlay(size, d, x);
  }

  lemma WholeOverlay(d: Word, x: Word)
    ensures Overlay(2, d, x) == x
  {
  }

  /** What a load of the data register does to the hart. */
  lemma LoadPerformed(cfg: Config, v: View, d: Word, h: Hart, size: nat, r: Reg)
    requires ValidConfig(cfg) && ValidView(v) && ValidHart(h) && size < 3 && (Two(cfg) ==> h.gpr[A0] == cfg.base)
    ensures Perform(cfg, SoloView(v, d), h, Load(size, r, Base(Two(cfg)), DATA))
         == SetReg(h, r, SignExtend(size, d)).(pc := Wrap(h.pc + 4))
  {
    hide Perform, SignExtend, Extract, ReadWord, Address, AccessOf, ValidHart;
    LoadAccess(cfg, h, size, r);
    ReadDataRegister(cfg, v, d);
    RunLoad(cfg, SoloView(v, d), h, size, r, Base(Two(cfg)), DATA, DATA);
    ExtractLowest(size, d);
  }

  predicate InSlot(cfg: Config, v: View, s: Solo, i: nat, instr: Instr) {
    && ValidConfig(cfg) && ValidView(v) && ValidHart(s.hart) && AtSlot(cfg, s.hart, i) && s.hart.debug
    && (Two(cfg) ==> s.hart.gpr[A0] == cfg.base)
    && Program(Two(cfg), v.command, i) == instr
  }

  /** A slot that loads the data register into an integer register. */
  lemma LoadSlot(cfg: Config, v: View, s: Solo, i: nat, size: nat, r: Reg, n: nat, out: Outcome)
    requires size < 3 && InSlot(cfg, v, s, i, Load(size, r, Base(Two(cfg)), DATA)) && n > 0
    requires var h := s.hart;
      Ends(cfg, v, s.(hart := SetReg(h, r, SignExtend(size, s.data)).(pc := Wrap(h.pc + 4))), n - 1, out)
    ensures Ends(cfg, v, s, n, out)
  {
    hide Program, Perform, At, Ends, AccessOf, SignExtend, ValidHart, AtSlot;
    var h, instr := s.hart, Load(size, r, Base(Two(cfg)), DATA);
    LoadPerformed(cfg, v, s.data, h, size, r);
    LoadAccess(cfg, h, size, r);
    AnySlot(cfg, v, s, i, instr, ReadAt(DATA), Perform(cfg, SoloView(v, s.data), h, instr), n, out);
  }

  /** A slot that stores an integer register into the data register. */
  lemma StoreSlot(cfg: Config, v: View, s: Solo, i: nat, size: nat, r: Reg, n: nat, out: Outcome)
    requires size < 3 && InSlot(cfg, v, s, i, Store(size, r, Base(Two(cfg)), DATA)) && n > 0
    requires var h := s.hart;
      Ends(cfg, v, s.(hart := h.(pc := Wrap(h.pc + 4)), data := Overlay(size, s.data, h.gpr[r])), n - 1, out)
    ensures Ends(cfg, v, s, n, out)
  {
    hide Program, Perform, At, Ends, AccessOf, Overlay, AtSlot, ByteEnable, DataAfter;
    var h, instr := s.hart, Store(size, r, Base(Two(cfg)), DATA);
    StoreAccess(cfg, h, size, r);
    RunStore(cfg, SoloView(v, s.data), h, size, r, Base(Two(cfg)), DATA);
    StoreEffect(s.data, h.gpr[r], size);
    AnySlot(cfg, v, s, i, instr, AccessOf(cfg, h, instr), h.(pc := Wrap(h.pc + 4)), n, out);
  }

  /** A slot that moves the data register into a floating-point register. */
  lemma FloatLoadSlot(cfg: Config, v: View, s: Solo, i: nat, r: Reg, n: nat, out: Outcome)
    requires InSlot(cfg, v, s, i, FLoad(r, Base(Two(cfg)), DATA)) && s.hart.fpu && n > 0
    requires var h := s.hart;
      Ends(cfg, v, s.(hart := h.(fpr := h.fpr[r := s.data], pc := Wrap(h.pc + 4))), n - 1, out)
    ensures Ends(cfg, v, s, n, out)
  {
    hide Program, Perform, At, Ends, AccessOf, AtSlot, ReadWord;
    var h, instr := s.hart, FLoad(r, Base(Two(cfg)), DATA);
    LoadAccess(cfg, h, 2, r);
    ReadDataRegister(cfg, v, s.data);
    RunFloatLoad(cfg, SoloView(v, s.data), h, r, Base(Two(cfg)), DATA, DATA);
    AnySlot(cfg, v, s, i, instr, ReadAt(DATA), Perform(cfg, SoloView(v, s.data), h, instr), n, out);
  }

  /** A slot that moves a floating-point register into the data register. */
  lemma FloatStoreSlot(cfg: Config, v: View, s: Solo, i: nat, r: Reg, n: nat, out: Outcome)
    requires InSlot(cfg, v, s, i, FStore(r, Base(Two(cfg)), DATA)) && s.hart.fpu && n > 0
    requires var h := s.hart; Ends(cfg, v, s.(hart := h.(pc := Wrap(h.pc + 4)), data := h.fpr[r]), n - 1, out)
    ensures Ends(cfg, v, s, n, out)
  {
    hide Program, Perform, At, Ends, AccessOf, Overlay, AtSlot, ByteEnable, DataAfter;
    var h, instr := s.hart, FStore(r, Base(Two(cfg)), DATA);
    StoreAccess(cfg, h, 2, r);
    RunFloatStore(cfg, SoloView(v, s.data), h, r, Base(Two(cfg)), DATA);
    StoreEffect(s.data, h.fpr[r], 2);
    WholeOverlay(s.data, h.fpr[r]);
    AnySlot(cfg, v, s, i, instr, AccessOf(cfg, h, instr), h.(pc := Wrap(h.pc + 4)), n, out);
  }
}
