/** A hart in debug mode fetching from the debug memory, and what the ROM keeps of the
    registers it borrows. */
module ParkLoop {
  import opened Words
  import opened Riscv
  import opened DebugRom
  import opened Harts
  import opened DebugMemory

  // ---- One instruction -------------------------------------------------------------------

  /** The instruction a hart fetches; outside the debug window the fetch faults. */
  function Instruction(cfg: Config, v: View, h: Hart): Instr
    requires ValidView(v)
  {
    if cfg.base <= h.pc < cfg.base + 0x1000 then Decode(ReadWord(cfg, v, h.pc - cfg.base)) else Illegal
  }

  function LoadData(cfg: Config, v: View, a: Access): Word
    requires ValidView(v)
  {
    if a.ReadAt? then ReadWord(cfg, v, a.offset) else 0
  }

  function Perform(cfg: Config, v: View, h: Hart, i: Instr): Hart
    requires ValidView(v) && ValidHart(h)
  {
    Execute(cfg, h, i, LoadData(cfg, v, AccessOf(cfg, h, i)))
  }

  function RequestOf(cfg: Config, v: View, h: Hart): Access
    requires ValidView(v) && ValidHart(h)
  {
    AccessOf(cfg, h, Instruction(cfg, v, h))
  }

  function StepHart(cfg: Config, v: View, h: Hart): Hart
    requires ValidView(v) && ValidHart(h)
  {
    Perform(cfg, v, h, Instruction(cfg, v, h))
  }

  /** A hart stands at a program point of the ROM. */
  predicate At(cfg: Config, h: Hart, l: Loc) {
    Exists(Two(cfg), l) && h.pc == cfg.base + AddressOf(Two(cfg), l)
  }

  lemma FetchRom(cfg: Config, v: View, h: Hart, l: Loc)
    requires ValidView(v) && At(cfg, h, l)
    ensures Instruction(cfg, v, h) == Listing(Two(cfg), l)
  {
    hide Decode, Listing, ReadWord, ImageWord;
    ReadRom(cfg, v, l);
    ImageIsListing(Two(cfg), l);
  }

  // ---- The registers of the program being debugged ----------------------------------------

  /** What the debugged program owns: everything but pc, debug flag and scratch registers. */
  datatype Arch = Arch(id: Word, gpr: seq<Word>, fpu: bool, fpr: seq<Word>, csr: map<nat, Word>)

  function ArchOf(h: Hart): Arch {
    Arch(h.id, h.gpr, h.fpu, h.fpr, h.csr)
  }

  predicate ValidArch(a: Arch) {
    |a.gpr| == 32 && a.gpr[0] == 0 && |a.fpr| == 32
  }

  /** All of it is in place except possibly s0 and a0. */
  predicate RestInPlace(h: Hart, a: Arch) {
    && ValidHart(h) && ValidArch(a)
    && h.id == a.id && h.fpu == a.fpu && h.fpr == a.fpr && h.csr == a.csr
    && (forall r: nat :: r < 32 && r != S0 && r != A0 ==> h.gpr[r] == a.gpr[r])
  }

  /** s0 holds the program's value. */
  predicate S0Live(l: Loc) {
    l.EntryVector? || l.EntryFence? || l.SaveS0? || l.ExcEbreak? || l.GoJump? || l.ExitDret?
  }

  /** dscratch0 holds the program's s0. */
  predicate S0Stored(l: Loc) {
    !(l.EntryVector? || l.EntryFence? || l.SaveS0? || l.ExcEbreak? || l.ExitDret?)
  }

  /** a0 holds the program's value; without a second scratch register it always does. */
  predicate A0Live(two: bool, l: Loc) {
    !two || l.EntryVector? || l.EntryFence? || l.SaveS0? || l.SaveA0?
    || l.ExcRestoreS0? || l.ExcEbreak? || l.GoRestoreS0? || l.GoJump? || l.ExitRestoreS0? || l.ExitDret?
  }

  /** dscratch1 holds the program's a0. */
  predicate A0Stored(two: bool, l: Loc) {
    two && S0Stored(l) && !l.SaveA0?
  }

  /** a0 holds the base address of the debug module. */
  predicate A0IsBase(two: bool, l: Loc) {
    two && (l.LoopHartId? || l.StoreHalted? || l.AddGo? || l.LoadGo? || l.TestGo? || l.BranchGo?
            || l.ResumeHartId? || l.AddResume? || l.LoadResume? || l.TestResume? || l.BranchResume? || l.LoopBack?
            || l.ResumeVector? || l.StoreException? || l.StoreGoing? || l.ExitHartId? || l.StoreResuming?)
  }

  /** Working values of s0 and a0 on the way. */
  predicate Working(cfg: Config, l: Loc, h: Hart)
    requires ValidHart(h)
  {
    var two, s0, a0 := Two(cfg), h.gpr[S0], h.gpr[A0];
    && (A0IsBase(two, l) ==> a0 == cfg.base)
    && match l {
         case BaseSrli => a0 == cfg.base + AddressOf(two, BaseAuipc)
         case ExcSrli => a0 == cfg.base + AddressOf(two, ExcAuipc)
         case BaseSlli | ExcSlli => a0 == cfg.base / 0x1000
         case StoreHalted | AddGo | AddResume | StoreResuming => s0 == h.id
         case LoadGo | LoadResume => s0 == cfg.base + h.id
         case TestGo | TestResume => s0 <= 2
         case BranchGo => s0 <= 1
         case BranchResume => s0 == 0 || s0 == 2
         case _ => true
       }
  }

  /** At every program point the registers of the debugged program are recoverable. */
  predicate Coherent(cfg: Config, l: Loc, h: Hart, a: Arch) {
    var two := Two(cfg);
    && RestInPlace(h, a)
    && (S0Live(l) ==> h.gpr[S0] == a.gpr[S0])
    && (S0Stored(l) ==> h.dscratch0 == a.gpr[S0])
    && (A0Live(two, l) ==> h.gpr[A0] == a.gpr[A0])
    && (A0Stored(two, l) ==> h.dscratch1 == a.gpr[A0])
    && Working(cfg, l, h)
  }

  lemma LiveMeansInPlace(h: Hart, a: Arch)
    requires RestInPlace(h, a) && h.gpr[S0] == a.gpr[S0] && h.gpr[A0] == a.gpr[A0]
    ensures ArchOf(h) == a
  {
  }

  // ---- One step of the ROM code ------------------------------------------------------------

  /** The point that follows `l` when nothing branches. */
  function Following(two: bool, l: Loc): Loc {
    match l
    case EntryVector => EntryFence
    case ResumeVector => ExitHartId
    case ExceptionVector => if two then ExcAuipc else StoreException
    case EntryFence => SaveS0
    case SaveS0 => if two then SaveA0 else LoopHartId
    case SaveA0 => BaseAuipc
    case BaseAuipc => BaseSrli
    case BaseSrli => BaseSlli
    case BaseSlli => LoopHartId
    case LoopHartId => StoreHalted
    case StoreHalted => if two then AddGo else LoadGo
    case AddGo => LoadGo
    case LoadGo => TestGo
    case TestGo => BranchGo
    case BranchGo => ResumeHartId
    case ResumeHartId => if two then AddResume else LoadResume
    case AddResume => LoadResume
    case LoadResume => TestResume
    case TestResume => BranchResume
    case BranchResume => LoopBack
    case LoopBack => LoopHartId
    case ExcAuipc => ExcSrli
    case ExcSrli => ExcSlli
    case ExcSlli => StoreException
    case StoreException => if two then ExcRestoreA0 else ExcRestoreS0
    case ExcRestoreA0 => ExcRestoreS0
    case ExcRestoreS0 => ExcEbreak
    case ExcEbreak => EntryVector
    case StoreGoing => if two then GoRestoreA0 else GoRestoreS0
    case GoRestoreA0 => GoRestoreS0
    case GoRestoreS0 => GoJump
    case ExitHartId => StoreResuming
    case StoreResuming => if two then ExitRestoreA0 else ExitRestoreS0
    case ExitRestoreA0 => ExitRestoreS0
    case ExitRestoreS0 => ExitDret
    case _ => Nowhere
  }

  /** The point a hart reaches from `l`, the two polls branching on s0. */
  function NextLoc(two: bool, l: Loc, s0: Word): Loc {
    if l.BranchGo? && s0 != 0 then StoreGoing
    else if l.BranchResume? && s0 != 0 then ResumeVector
    else Following(two, l)
  }

  /** Points whose successor is again in the ROM. */
  predicate Inner(two: bool, l: Loc) {
    Exists(two, l) && !l.GoJump? && !l.ExitDret?
  }

  /** The bus access of each point. */
  function AccessAt(l: Loc, id: Word): Access {
    match l
    case StoreHalted => WriteAt(HALTED, id, [true, true, true, true])
    case StoreGoing => WriteAt(GOING, 0, [true, true, true, true])
    case StoreException => WriteAt(EXCEPTION, 0, [true, true, true, true])
    case StoreResuming => WriteAt(RESUMING, id, [true, true, true, true])
    case LoadGo | LoadResume => ReadAt(FLAGS + id)
    case _ => NoAccess
  }

  lemma WindowArithmetic(cfg: Config, offset: nat)
    requires ValidConfig(cfg) && offset < 0x1000
    ensures Wrap(cfg.base + offset) == cfg.base + offset
    ensures (cfg.base + offset) % 4 == offset % 4
    ensures (cfg.base + offset) / 0x1000 == cfg.base / 0x1000
    ensures cfg.base / 0x1000 * 0x1000 == cfg.base
  {
    PageArithmetic(cfg.base / 0x1000, offset);
  }

  lemma PageArithmetic(page: nat, offset: nat)
    requires page < 0x10_0000 && offset < 0x1000
    ensures (page * 0x1000 + offset) % 0x1_0000_0000 == page * 0x1000 + offset
    ensures (page * 0x1000 + offset) / 0x1000 == page && (page * 0x1000 + offset) % 4 == offset % 4
  {
    SplitAt(0, page * 0x1000 + offset, 0x1_0000_0000);
    SplitAt(page, offset, 0x1000);
    SplitAt(page * 0x400 + offset / 4, offset % 4, 4);
  }

  lemma ShiftByTwelve()
    ensures Pow2(12) == 0x1000
  {
    assert Pow2(4) == 16;
    assert Pow2(8) == 256;
  }

  lemma AndSmall(x: nat)
    requires x <= 2
    ensures And(x, 1) == x % 2
    ensures And(x, 2) == if x == 2 then 2 else 0
  {
    assert And(x, 1) == x % 2 + 2 * And(x / 2, 0);
    assert And(x, 2) == 2 * And(x / 2, 1);
    assert And(x / 2, 1) == x / 2 % 2 + 2 * And(x / 2 / 2, 0);
  }

  /** The ROM's stores go through the base register. */
  lemma BaseAddress(cfg: Config, h: Hart, offset: nat)
    requires ValidConfig(cfg) && ValidHart(h) && offset < 0x800 && offset % 4 == 0
    requires Two(cfg) ==> h.gpr[A0] == cfg.base
    ensures Address(h, Base(Two(cfg)), offset) == cfg.base + offset
    ensures Reachable(cfg, cfg.base + offset, 2) && (cfg.base + offset) % 4 == 0
  {
    WindowArithmetic(cfg, offset);
  }

  lemma FlagAddress(cfg: Config, h: Hart)
    requires ValidConfig(cfg) && ValidHart(h) && h.gpr[S0] == cfg.base + h.id
    ensures Address(h, S0, FLAGS) == cfg.base + FLAGS + h.id
    ensures Reachable(cfg, cfg.base + FLAGS + h.id, 4)
    ensures (cfg.base + FLAGS + h.id) % 4 == (FLAGS + h.id) % 4
  {
    WindowArithmetic(cfg, FLAGS + h.id);
  }

  lemma StoresInRom(cfg: Config, h: Hart, l: Loc, a: Arch)
    requires ValidConfig(cfg) && Exists(Two(cfg), l) && Coherent(cfg, l, h, a) && ValidHart(h)
    requires l.StoreHalted? || l.StoreGoing? || l.StoreException? || l.StoreResuming?
    ensures AccessOf(cfg, h, Listing(Two(cfg), l)) == AccessAt(l, h.id)
  {
    hide Address, Reachable, AddressOf, RestInPlace;
    match l
    case StoreHalted => BaseAddress(cfg, h, HALTED);
    case StoreGoing => BaseAddress(cfg, h, GOING);
    case StoreException => BaseAddress(cfg, h, EXCEPTION);
    case StoreResuming => BaseAddress(cfg, h, RESUMING);
  }

  predicate TouchesBus(i: Instr) {
    i.Load? || i.Store? || i.FLoad? || i.FStore?
  }

  lemma SilentLines(two: bool, l: Loc)
    requires Exists(two, l)
    ensures TouchesBus(Listing(two, l)) <==> MemoryLine(l)
  {
    hide AddressOf;
  }

  lemma SilentAccess(cfg: Config, h: Hart, i: Instr)
    requires ValidHart(h) && !TouchesBus(i)
    ensures AccessOf(cfg, h, i).NoAccess?
  {
  }

  /** The ROM code's bus traffic is what the listing suggests. */
  lemma AccessInRom(cfg: Config, h: Hart, l: Loc, a: Arch)
    requires ValidConfig(cfg) && Exists(Two(cfg), l) && Coherent(cfg, l, h, a)
    ensures AccessOf(cfg, h, Listing(Two(cfg), l)) == AccessAt(l, h.id)
  {
    assert ValidHart(h) by { CoherentValid(cfg, l, h, a); }
    if StoreLine(l) {
      hide Coherent, AccessOf, Listing;
      StoresInRom(cfg, h, l, a);
    } else if l.LoadGo? || l.LoadResume? {
      hide Address, Reachable, AddressOf, RestInPlace;
      FlagAddress(cfg, h);
    } else {
      hide Coherent, AccessOf, Listing, TouchesBus;
      SilentLines(Two(cfg), l);
      SilentAccess(cfg, h, Listing(Two(cfg), l));
    }
  }

  lemma CoherentValid(cfg: Config, l: Loc, h: Hart, a: Arch)
    requires Coherent(cfg, l, h, a)
    ensures ValidHart(h)
  {
  }

  /** Straight-line points. */
  predicate FallsThrough(two: bool, l: Loc) {
    Inner(two, l) && !l.EntryVector? && !l.ResumeVector? && !l.ExceptionVector? && !l.LoopBack? && !l.ExcEbreak?
  }

  lemma AddressInWindow(two: bool, l: Loc)
    requires Exists(two, l)
    ensures AddressOf(two, l) < 0x900
  {
  }

  lemma FollowingFalls(two: bool, l: Loc)
    requires FallsThrough(two, l)
    ensures Exists(two, Following(two, l)) && AddressOf(two, Following(two, l)) == AddressOf(two, l) + 4
  {
    if two { FollowsTwo(l); } else { FollowsOne(l); }
  }

  lemma FollowsTwo(l: Loc)
    requires FallsThrough(true, l)
    ensures Exists(true, Following(true, l)) && IndexOf(true, Following(true, l)) == IndexOf(true, l) + 1
  {
    hide Following, Exists;
    if IndexOf(true, l) < 18 { FollowsFront(l); } else { FollowsBack(l); }
  }

  lemma FollowsFront(l: Loc)
    requires FallsThrough(true, l) && IndexOf(true, l) < 18
    ensures Exists(true, Following(true, l)) && IndexOf(true, Following(true, l)) == IndexOf(true, l) + 1
  {
  }

  lemma FollowsBack(l: Loc)
    requires FallsThrough(true, l) && IndexOf(true, l) >= 18
    ensures Exists(true, Following(true, l)) && IndexOf(true, Following(true, l)) == IndexOf(true, l) + 1
  {
  }

  lemma FollowsOne(l: Loc)
    requires FallsThrough(false, l)
    ensures Exists(false, Following(false, l)) && IndexOf(false, Following(false, l)) == IndexOf(false, l) + 1
  {
  }

  lemma NextPc(cfg: Config, h: Hart, l: Loc)
    requires ValidConfig(cfg) && At(cfg, h, l) && FallsThrough(Two(cfg), l)
    ensures Exists(Two(cfg), Following(Two(cfg), l))
    ensures Wrap(h.pc + 4) == cfg.base + AddressOf(Two(cfg), Following(Two(cfg), l))
  {
    hide AddressOf, FallsThrough, Following;
    FollowingFalls(Two(cfg), l);
    AddressInWindow(Two(cfg), l);
    WindowArithmetic(cfg, AddressOf(Two(cfg), l) + 4);
  }

  lemma JumpPc(cfg: Config, h: Hart, l: Loc, target: nat)
    requires ValidConfig(cfg) && At(cfg, h, l) && target < 0x1000
    ensures Wrap(h.pc + (target - AddressOf(Two(cfg), l))) == cfg.base + target
  {
    WindowArithmetic(cfg, target);
  }

  /** What one step from `l` establishes. */
  predicate StepsTo(cfg: Config, l': Loc, h: Hart, h': Hart, a: Arch) {
    h'.debug == h.debug && At(cfg, h', l') && Coherent(cfg, l', h', a)
  }

  predicate Ready(cfg: Config, v: View, l: Loc, h: Hart, a: Arch) {
    ValidConfig(cfg) && ValidView(v) && At(cfg, h, l) && Coherent(cfg, l, h, a)
  }

  /** The registers that the line at `l` leaves behind, its pc aside. */
  function LineEffect(cfg: Config, v: View, l: Loc, h: Hart): Hart
    requires ValidView(v) && ValidHart(h)
  {
    match l
    case SaveS0 => h.(dscratch0 := h.gpr[S0])
    case SaveA0 => h.(dscratch1 := h.gpr[A0])
    case BaseAuipc | ExcAuipc => SetReg(h, A0, h.pc)
    case BaseSrli | ExcSrli => SetReg(h, A0, h.gpr[A0] / 0x1000)
    case BaseSlli | ExcSlli => SetReg(h, A0, Wrap(h.gpr[A0] as int * 0x1000))
    case LoopHartId | ResumeHartId | ExitHartId => SetReg(h, S0, h.id)
    case AddGo | AddResume => SetReg(h, S0, Wrap(h.gpr[S0] as int + h.gpr[A0] as int))
    case LoadGo | LoadResume => SetReg(h, S0, Lane(ReadWord(cfg, v, FLAGS + h.id), (FLAGS + h.id) % 4))
    case TestGo => SetReg(h, S0, Wrap(And(h.gpr[S0], 1)))
    case TestResume => SetReg(h, S0, Wrap(And(h.gpr[S0], 2)))
    case ExcRestoreA0 | GoRestoreA0 | ExitRestoreA0 => SetReg(h, A0, h.dscratch1)
    case ExcRestoreS0 | GoRestoreS0 | ExitRestoreS0 => SetReg(h, S0, h.dscratch0)
    case _ => h
  }

  /** Executing the listed instruction at `l` has that effect and leads to the point the listing says. */
  predicate LineRuns(cfg: Config, v: View, l: Loc, h: Hart)
    requires ValidView(v) && ValidHart(h) && Exists(Two(cfg), l)
  {
    var h' := Perform(cfg, v, h, Listing(Two(cfg), l));
    h' == LineEffect(cfg, v, l, h).(pc := h'.pc) && At(cfg, h', NextLoc(Two(cfg), l, h.gpr[S0]))
  }

  predicate JumpLine(l: Loc) {
    l.EntryVector? || l.ResumeVector? || l.ExceptionVector? || l.LoopBack? || l.ExcEbreak?
  }

  predicate MemoryLine(l: Loc) {
    l.StoreHalted? || l.StoreGoing? || l.StoreException? || l.StoreResuming? || l.LoadGo? || l.LoadResume?
  }

  predicate BaseLine(l: Loc) {
    l.BaseAuipc? || l.BaseSrli? || l.BaseSlli? || l.ExcAuipc? || l.ExcSrli? || l.ExcSlli?
  }

  predicate FlagLine(l: Loc) {
    l.AddGo? || l.AddResume? || l.TestGo? || l.TestResume?
  }

  predicate RestoreLine(l: Loc) {
    l.ExcRestoreA0? || l.ExcRestoreS0? || l.GoRestoreA0? || l.GoRestoreS0? || l.ExitRestoreA0? || l.ExitRestoreS0?
  }

  predicate EntryLine(l: Loc) {
    l.EntryFence? || l.SaveS0? || l.SaveA0? || l.LoopHartId? || l.ResumeHartId? || l.ExitHartId?
  }

  lemma LineKinds(two: bool, l: Loc)
    requires Inner(two, l)
    ensures JumpLine(l) || l.BranchGo? || l.BranchResume? || MemoryLine(l) || BaseLine(l) || FlagLine(l) || RestoreLine(l) || EntryLine(l)
  {
  }

  // The instructions of the listing, one kind at a time

  lemma RunJal(cfg: Config, v: View, h: Hart, offset: int)
    requires ValidView(v) && ValidHart(h)
    ensures Perform(cfg, v, h, Jal(0, offset)) == h.(pc := Wrap(h.pc + offset))
  {
  }

  lemma RunBnez(cfg: Config, v: View, h: Hart, r: Reg, offset: int)
    requires ValidView(v) && ValidHart(h)
    ensures Perform(cfg, v, h, Bne(r, 0, offset)) == h.(pc := Wrap(h.pc + if h.gpr[r] != 0 then offset else 4))
  {
  }

  lemma RunPlain(cfg: Config, v: View, h: Hart)
    requires ValidView(v) && ValidHart(h)
    ensures Perform(cfg, v, h, Fence) == h.(pc := Wrap(h.pc + 4))
    ensures Perform(cfg, v, h, Ebreak) == h.(pc := Wrap(cfg.base + ROM))
  {
  }

  lemma RunCsrr(cfg: Config, v: View, h: Hart, rd: Reg, a: nat)
    requires ValidView(v) && ValidHart(h) && rd != 0
    requires a == CSR_DSCRATCH0 || a == CSR_DSCRATCH1 || a == CSR_MHARTID
    ensures Perform(cfg, v, h, Csrr(rd, a)) == h.(gpr := h.gpr[rd := CsrRead(h, a)], pc := Wrap(h.pc + 4))
  {
  }

  lemma RunCsrw(cfg: Config, v: View, h: Hart, a: nat, rs1: Reg)
    requires ValidView(v) && ValidHart(h) && (a == CSR_DSCRATCH0 || a == CSR_DSCRATCH1)
    ensures Perform(cfg, v, h, Csrrw(0, a, rs1)) == CsrWrite(h, a, h.gpr[rs1]).(pc := Wrap(h.pc + 4))
  {
  }

  lemma RunStore(cfg: Config, v: View, h: Hart, size: nat, rs2: Reg, rs1: Reg, imm: nat)
    requires ValidView(v) && ValidHart(h) && !AccessOf(cfg, h, Store(size, rs2, rs1, imm)).NoAccess?
    ensures Perform(cfg, v, h, Store(size, rs2, rs1, imm)) == h.(pc := Wrap(h.pc + 4))
  {
    hide Address, Reachable;
  }

  lemma RunLoad(cfg: Config, v: View, h: Hart, size: nat, rd: Reg, rs1: Reg, imm: nat, offset: nat)
    requires ValidView(v) && ValidHart(h) && AccessOf(cfg, h, Load(size, rd, rs1, imm)) == ReadAt(offset)
    ensures Perform(cfg, v, h, Load(size, rd, rs1, imm))
         == SetReg(h, rd, Extract(size, ReadWord(cfg, v, offset), Address(h, rs1, imm) % 4)).(pc := Wrap(h.pc + 4))
  {
    hide Address, Reachable, ReadWord, Extract;
  }

  lemma RunBaseSteps(cfg: Config, v: View, h: Hart)
    requires ValidView(v) && ValidHart(h)
    ensures Perform(cfg, v, h, Auipc(A0, 0)) == h.(gpr := h.gpr[A0 := h.pc], pc := Wrap(h.pc + 4))
    ensures Perform(cfg, v, h, Srli(A0, A0, 12)) == h.(gpr := h.gpr[A0 := h.gpr[A0] / 0x1000], pc := Wrap(h.pc + 4))
    ensures Perform(cfg, v, h, Slli(A0, A0, 12))
         == h.(gpr := h.gpr[A0 := Wrap(h.gpr[A0] as int * 0x1000)], pc := Wrap(h.pc + 4))
  {
    hide Pow2;
    ShiftByTwelve();
  }

  lemma RunFlagSteps(cfg: Config, v: View, h: Hart, mask: nat)
    requires ValidView(v) && ValidHart(h) && mask < 0x800
    ensures Perform(cfg, v, h, Andi(S0, S0, mask)) == h.(gpr := h.gpr[S0 := Wrap(And(h.gpr[S0], mask))], pc := Wrap(h.pc + 4))
    ensures Perform(cfg, v, h, Add(S0, S0, A0))
         == h.(gpr := h.gpr[S0 := Wrap(h.gpr[S0] as int + h.gpr[A0] as int)], pc := Wrap(h.pc + 4))
  {
    hide And;
  }

  // The lines of the listing

  lemma JumpsListed(two: bool, l: Loc)
    requires Exists(two, l) && JumpLine(l) && !l.ExcEbreak?
    ensures Listing(two, l) == Jal(0, AddressOf(two, Following(two, l)) - AddressOf(two, l))
  {
    hide AddressOf;
  }

  /** A jump, given what the listing has. */
  lemma JumpRuns(cfg: Config, v: View, l: Loc, h: Hart, a: Arch, next: Loc)
    requires Ready(cfg, v, l, h, a) && ValidHart(h) && Exists(Two(cfg), next)
    requires Listing(Two(cfg), l) == Jal(0, AddressOf(Two(cfg), next) - AddressOf(Two(cfg), l))
    requires LineEffect(cfg, v, l, h) == h && NextLoc(Two(cfg), l, h.gpr[S0]) == next
    ensures LineRuns(cfg, v, l, h)
  {
    hide AddressOf, Perform, Coherent, Listing, Following, LineEffect, NextLoc, Exists, ValidHart;
    AddressInWindow(Two(cfg), next);
    JumpPc(cfg, h, l, AddressOf(Two(cfg), next));
    RunJal(cfg, v, h, AddressOf(Two(cfg), next) - AddressOf(Two(cfg), l));
  }

  /** Lines that fall through. */
  predicate Straight(l: Loc) {
    MemoryLine(l) || BaseLine(l) || FlagLine(l) || RestoreLine(l) || EntryLine(l)
  }

  lemma StraightFalls(two: bool, l: Loc, s0: Word)
    requires Exists(two, l) && Straight(l)
    ensures FallsThrough(two, l) && NextLoc(two, l, s0) == Following(two, l)
  {
    hide Following;
  }

  /** The instruction at `l` has the effect of the line and goes on to the next word. */
  predicate LineExecutes(cfg: Config, v: View, l: Loc, h: Hart)
    requires ValidView(v) && ValidHart(h) && Exists(Two(cfg), l)
  {
    Perform(cfg, v, h, Listing(Two(cfg), l)) == LineEffect(cfg, v, l, h).(pc := Wrap(h.pc + 4))
  }

  lemma StraightNext(cfg: Config, l: Loc, h: Hart, s0: Word)
    requires ValidConfig(cfg) && At(cfg, h, l) && Straight(l)
    ensures Exists(Two(cfg), NextLoc(Two(cfg), l, s0))
    ensures Wrap(h.pc + 4) == cfg.base + AddressOf(Two(cfg), NextLoc(Two(cfg), l, s0))
  {
    hide AddressOf, Following, NextLoc, FallsThrough, Straight, ValidConfig, Wrap;
    StraightFalls(Two(cfg), l, s0);
    NextPc(cfg, h, l);
  }

  lemma HartFacts(cfg: Config, h: Hart, l: Loc)
    requires ValidHart(h) && At(cfg, h, l)
    ensures |h.gpr| == 32 && Exists(Two(cfg), l)
  {
    hide Exists, AddressOf;
  }

  lemma StraightRuns(cfg: Config, v: View, l: Loc, h: Hart)
    requires ValidConfig(cfg) && ValidView(v) && ValidHart(h) && At(cfg, h, l)
    requires Straight(l) && LineExecutes(cfg, v, l, h)
    ensures LineRuns(cfg, v, l, h)
  {
    hide AddressOf, Perform, Listing, LineEffect, NextLoc, Exists, ValidHart, Straight, ValidConfig, Wrap, ValidView, At;
    HartFacts(cfg, h, l);
    StraightNext(cfg, l, h, h.gpr[S0]);
    Arrived(cfg, h, LineEffect(cfg, v, l, h), Perform(cfg, v, h, Listing(Two(cfg), l)), NextLoc(Two(cfg), l, h.gpr[S0]));
  }

  lemma Arrived(cfg: Config, h: Hart, e: Hart, h': Hart, l': Loc)
    requires Exists(Two(cfg), l') && Wrap(h.pc + 4) == cfg.base + AddressOf(Two(cfg), l')
    requires h' == e.(pc := Wrap(h.pc + 4))
    ensures h' == e.(pc := h'.pc) && At(cfg, h', l')
  {
    hide AddressOf, Exists, Wrap;
  }

  /** The ebreak at the end of the exception path enters the loop again. */
  lemma EbreakRuns(cfg: Config, v: View, h: Hart)
    requires ValidConfig(cfg) && ValidView(v) && ValidHart(h)
    ensures LineRuns(cfg, v, ExcEbreak, h)
  {
    assert |h.gpr| == 32;
    hide AddressOf, Perform, ValidHart;
    RunPlain(cfg, v, h);
    EntryAddress(cfg);
  }

  lemma JumpFacts(cfg: Config, v: View, l: Loc, h: Hart)
    requires ValidView(v) && ValidHart(h) && Exists(Two(cfg), l) && JumpLine(l) && !l.ExcEbreak?
    ensures Exists(Two(cfg), Following(Two(cfg), l))
    ensures Listing(Two(cfg), l) == Jal(0, AddressOf(Two(cfg), Following(Two(cfg), l)) - AddressOf(Two(cfg), l))
    ensures LineEffect(cfg, v, l, h) == h && NextLoc(Two(cfg), l, h.gpr[S0]) == Following(Two(cfg), l)
  {
    hide AddressOf, ValidHart;
    JumpsListed(Two(cfg), l);
  }

  lemma JumpLineRuns(cfg: Config, v: View, l: Loc, h: Hart, a: Arch)
    requires Ready(cfg, v, l, h, a) && JumpLine(l)
    ensures ValidHart(h) && LineRuns(cfg, v, l, h)
  {
    CoherentValid(cfg, l, h, a);
    if l.ExcEbreak? {
      hide LineRuns, ValidHart, Coherent, At;
      EbreakRuns(cfg, v, h);
    } else {
      assert |h.gpr| == 32 && Exists(Two(cfg), l);
      hide AddressOf, Perform, Coherent, At, LineRuns, Listing, LineEffect, Following, NextLoc, Exists, ValidHart;
      JumpFacts(cfg, v, l, h);
      JumpRuns(cfg, v, l, h, a, Following(Two(cfg), l));
    }
  }

  /** A taken branch on s0, given what the listing has. */
  lemma TakenRuns(cfg: Config, v: View, l: Loc, h: Hart, a: Arch, target: Loc)
    requires Ready(cfg, v, l, h, a) && ValidHart(h) && h.gpr[S0] != 0 && Exists(Two(cfg), target)
    requires Listing(Two(cfg), l) == Bne(S0, 0, AddressOf(Two(cfg), target) - AddressOf(Two(cfg), l))
    requires LineEffect(cfg, v, l, h) == h && NextLoc(Two(cfg), l, h.gpr[S0]) == target
    ensures LineRuns(cfg, v, l, h)
  {
    hide AddressOf, Perform, Coherent, Listing, Following, LineEffect, NextLoc, Exists, ValidHart;
    AddressInWindow(Two(cfg), target);
    JumpPc(cfg, h, l, AddressOf(Two(cfg), target));
    RunBnez(cfg, v, h, S0, AddressOf(Two(cfg), target) - AddressOf(Two(cfg), l));
  }

  /** A branch that is not taken. */
  lemma NotTakenRuns(cfg: Config, v: View, l: Loc, h: Hart, a: Arch, offset: int)
    requires Ready(cfg, v, l, h, a) && ValidHart(h) && h.gpr[S0] == 0 && FallsThrough(Two(cfg), l)
    requires Listing(Two(cfg), l) == Bne(S0, 0, offset) && LineEffect(cfg, v, l, h) == h
    requires NextLoc(Two(cfg), l, h.gpr[S0]) == Following(Two(cfg), l)
    ensures LineRuns(cfg, v, l, h)
  {
    hide AddressOf, Perform, Coherent, Listing, Following, LineEffect, NextLoc, Exists, FallsThrough, ValidHart;
    NextPc(cfg, h, l);
    RunBnez(cfg, v, h, S0, offset);
  }

  lemma BranchFacts(two: bool, l: Loc)
    requires l.BranchGo? || l.BranchResume?
    ensures FallsThrough(two, l)
    ensures var target := if l.BranchGo? then StoreGoing else ResumeVector;
      Exists(two, target) && Listing(two, l) == Bne(S0, 0, AddressOf(two, target) - AddressOf(two, l))
    ensures forall s0: Word :: NextLoc(two, l, s0) == if s0 == 0 then Following(two, l) else if l.BranchGo? then StoreGoing else ResumeVector
  {
    hide AddressOf, Following;
  }

  lemma BranchHasNoEffect(cfg: Config, v: View, l: Loc, h: Hart)
    requires ValidView(v) && ValidHart(h) && (l.BranchGo? || l.BranchResume?)
    ensures LineEffect(cfg, v, l, h) == h
  {
  }

  lemma BranchLineRuns(cfg: Config, v: View, l: Loc, h: Hart, a: Arch)
    requires Ready(cfg, v, l, h, a) && (l.BranchGo? || l.BranchResume?)
    ensures ValidHart(h) && LineRuns(cfg, v, l, h)
  {
    hide AddressOf, Perform, Coherent, At, FallsThrough, LineRuns, Listing, LineEffect, NextLoc, Following, Exists, ValidHart, ValidConfig;
    var target := if l.BranchGo? then StoreGoing else ResumeVector;
    CoherentValid(cfg, l, h, a);
    HartFacts(cfg, h, l);
    BranchFacts(Two(cfg), l);
    BranchHasNoEffect(cfg, v, l, h);
    if h.gpr[S0] != 0 {
      TakenRuns(cfg, v, l, h, a, target);
    } else {
      NotTakenRuns(cfg, v, l, h, a, AddressOf(Two(cfg), target) - AddressOf(Two(cfg), l));
    }
  }

  lemma FlagLoad(cfg: Config, l: Loc, h: Hart, a: Arch)
    requires ValidConfig(cfg) && Exists(Two(cfg), l) && Coherent(cfg, l, h, a) && ValidHart(h) && (l.LoadGo? || l.LoadResume?)
    ensures AccessOf(cfg, h, Load(4, S0, S0, FLAGS)) == ReadAt(FLAGS + h.id)
    ensures Address(h, S0, FLAGS) % 4 == (FLAGS + h.id) % 4
  {
    AccessInRom(cfg, h, l, a);
    FlagAddress(cfg, h);
  }

  lemma RunFlagLoad(cfg: Config, v: View, l: Loc, h: Hart)
    requires ValidView(v) && ValidHart(h) && Exists(Two(cfg), l) && (l.LoadGo? || l.LoadResume?)
    requires AccessOf(cfg, h, Load(4, S0, S0, FLAGS)) == ReadAt(FLAGS + h.id)
    requires Address(h, S0, FLAGS) % 4 == (FLAGS + h.id) % 4
    ensures LineExecutes(cfg, v, l, h)
  {
    hide ReadWord, AccessOf, Address, Lane, Perform, Reachable;
    RunLoad(cfg, v, h, 4, S0, S0, FLAGS, FLAGS + h.id);
  }

  predicate StoreLine(l: Loc) {
    l.StoreHalted? || l.StoreGoing? || l.StoreException? || l.StoreResuming?
  }

  lemma RunRomStore(cfg: Config, v: View, l: Loc, h: Hart)
    requires ValidView(v) && ValidHart(h) && Exists(Two(cfg), l) && StoreLine(l)
    requires !AccessOf(cfg, h, Listing(Two(cfg), l)).NoAccess?
    ensures LineExecutes(cfg, v, l, h)
  {
    hide AccessOf, Perform, ValidHart;
    match l
    case StoreHalted => RunStore(cfg, v, h, 2, S0, Base(Two(cfg)), HALTED);
    case StoreResuming => RunStore(cfg, v, h, 2, S0, Base(Two(cfg)), RESUMING);
    case StoreGoing => RunStore(cfg, v, h, 2, 0, Base(Two(cfg)), GOING);
    case StoreException => RunStore(cfg, v, h, 2, 0, Base(Two(cfg)), EXCEPTION);
  }

  lemma RunMemory(cfg: Config, v: View, l: Loc, h: Hart, a: Arch)
    requires ValidConfig(cfg) && ValidView(v) && Exists(Two(cfg), l) && Coherent(cfg, l, h, a) && ValidHart(h) && MemoryLine(l)
    ensures LineExecutes(cfg, v, l, h)
  {
    hide AccessOf, Address, Coherent, LineExecutes, Listing, ValidHart;
    if l.LoadGo? || l.LoadResume? {
      FlagLoad(cfg, l, h, a);
      RunFlagLoad(cfg, v, l, h);
    } else {
      AccessInRom(cfg, h, l, a);
      RunRomStore(cfg, v, l, h);
    }
  }

  lemma RunBase(cfg: Config, v: View, l: Loc, h: Hart)
    requires ValidView(v) && ValidHart(h) && Exists(Two(cfg), l) && BaseLine(l)
    ensures LineExecutes(cfg, v, l, h)
  {
    hide Perform, ValidHart, Wrap;
    RunBaseSteps(cfg, v, h);
    match l
    case BaseAuipc | ExcAuipc =>
    case BaseSrli | ExcSrli =>
    case BaseSlli | ExcSlli =>
  }

  lemma RunFlag(cfg: Config, v: View, l: Loc, h: Hart)
    requires ValidView(v) && ValidHart(h) && Exists(Two(cfg), l) && FlagLine(l)
    ensures LineExecutes(cfg, v, l, h)
  {
    hide And, Perform, ValidHart, Wrap;
    match l
    case TestGo => RunFlagSteps(cfg, v, h, 1);
    case AddGo | AddResume | TestResume => RunFlagSteps(cfg, v, h, 2);
  }

  predicate RestoresA0(l: Loc) {
    l.ExcRestoreA0? || l.GoRestoreA0? || l.ExitRestoreA0?
  }

  lemma RunRestoreA0(cfg: Config, v: View, l: Loc, h: Hart)
    requires ValidView(v) && ValidHart(h) && Exists(Two(cfg), l) && RestoresA0(l)
    ensures LineExecutes(cfg, v, l, h)
  {
    hide Perform, ValidHart, Wrap;
    RunCsrr(cfg, v, h, A0, CSR_DSCRATCH1);
  }

  lemma RunRestoreS0(cfg: Config, v: View, l: Loc, h: Hart)
    requires ValidView(v) && ValidHart(h) && Exists(Two(cfg), l) && RestoreLine(l) && !RestoresA0(l)
    ensures LineExecutes(cfg, v, l, h)
  {
    hide Perform, ValidHart, Wrap, Listing, LineEffect, Exists;
    RestoreS0Listed(cfg, v, l, h);
    RunCsrr(cfg, v, h, S0, CSR_DSCRATCH0);
  }

  lemma RestoreS0Listed(cfg: Config, v: View, l: Loc, h: Hart)
    requires ValidView(v) && ValidHart(h) && Exists(Two(cfg), l) && RestoreLine(l) && !RestoresA0(l)
    ensures |h.gpr| == 32 && Listing(Two(cfg), l) == Csrr(S0, CSR_DSCRATCH0)
    ensures LineEffect(cfg, v, l, h) == h.(gpr := h.gpr[S0 := h.dscratch0])
  {
  }

  lemma RunRestore(cfg: Config, v: View, l: Loc, h: Hart)
    requires ValidView(v) && ValidHart(h) && Exists(Two(cfg), l) && RestoreLine(l)
    ensures LineExecutes(cfg, v, l, h)
  {
    hide LineExecutes, ValidHart, Exists;
    if RestoresA0(l) { RunRestoreA0(cfg, v, l, h); } else { RunRestoreS0(cfg, v, l, h); }
  }

  lemma RunEntry(cfg: Config, v: View, l: Loc, h: Hart)
    requires ValidView(v) && ValidHart(h) && Exists(Two(cfg), l) && EntryLine(l)
    ensures LineExecutes(cfg, v, l, h)
  {
    hide Perform, ValidHart, Wrap;
    match l
    case EntryFence => RunPlain(cfg, v, h);
    case SaveS0 => RunCsrw(cfg, v, h, CSR_DSCRATCH0, S0);
    case SaveA0 => RunCsrw(cfg, v, h, CSR_DSCRATCH1, A0);
    case LoopHartId | ResumeHartId | ExitHartId => RunCsrr(cfg, v, h, S0, CSR_MHARTID);
  }

  lemma StraightLineRuns(cfg: Config, v: View, l: Loc, h: Hart, a: Arch)
    requires Ready(cfg, v, l, h, a) && Straight(l)
    ensures ValidHart(h) && LineRuns(cfg, v, l, h)
  {
    CoherentValid(cfg, l, h, a);
    hide Coherent, LineExecutes, LineRuns, ValidHart, AddressOf;
    if MemoryLine(l) { RunMemory(cfg, v, l, h, a); }
    else if BaseLine(l) { RunBase(cfg, v, l, h); }
    else if FlagLine(l) { RunFlag(cfg, v, l, h); }
    else if RestoreLine(l) { RunRestore(cfg, v, l, h); }
    else { RunEntry(cfg, v, l, h); }
    StraightRuns(cfg, v, l, h);
  }

  lemma EntryAddress(cfg: Config)
    requires ValidConfig(cfg)
    ensures Wrap(cfg.base + ROM) == cfg.base + AddressOf(Two(cfg), EntryVector)
    ensures Wrap(cfg.base + EXCEPTION_VECTOR) == cfg.base + AddressOf(Two(cfg), ExceptionVector)
  {
    WindowArithmetic(cfg, ROM);
    WindowArithmetic(cfg, EXCEPTION_VECTOR);
  }

  /** Computing the base address: the pc of the auipc, shifted down and up by twelve. */
  lemma BaseComputed(cfg: Config, v: View, l: Loc, h: Hart, a: Arch)
    requires Ready(cfg, v, l, h, a)
    requires BaseLine(l)
    ensures Coherent(cfg, Following(Two(cfg), l), LineEffect(cfg, v, l, h), a)
  {
    hide AddressOf;
    if l.BaseSrli? || l.ExcSrli? {
      BaseShiftedDown(cfg, v, l, h, a);
    } else if l.BaseSlli? || l.ExcSlli? {
      BaseShiftedUp(cfg, v, l, h, a);
    }
  }

  lemma BaseShiftedDown(cfg: Config, v: View, l: Loc, h: Hart, a: Arch)
    requires Ready(cfg, v, l, h, a)
    requires l.BaseSrli? || l.ExcSrli?
    ensures Coherent(cfg, Following(Two(cfg), l), LineEffect(cfg, v, l, h), a)
  {
    hide AddressOf;
    var start := if l.BaseSrli? then BaseAuipc else ExcAuipc;
    PageOfPoint(cfg, start);
  }

  lemma PageOfPoint(cfg: Config, l: Loc)
    requires ValidConfig(cfg) && Exists(Two(cfg), l)
    ensures AddressOf(Two(cfg), l) < 0x1000 && (cfg.base + AddressOf(Two(cfg), l)) / 0x1000 == cfg.base / 0x1000
  {
    hide AddressOf;
    AddressInWindow(Two(cfg), l);
    WindowArithmetic(cfg, AddressOf(Two(cfg), l));
  }

  lemma BaseShiftedUp(cfg: Config, v: View, l: Loc, h: Hart, a: Arch)
    requires Ready(cfg, v, l, h, a)
    requires l.BaseSlli? || l.ExcSlli?
    ensures Coherent(cfg, Following(Two(cfg), l), LineEffect(cfg, v, l, h), a)
  {
    hide AddressOf;
    WindowArithmetic(cfg, 0);
  }

  /** A poll leaves the hart's own flag byte in s0. */
  lemma FlagLoaded(cfg: Config, v: View, l: Loc, h: Hart, a: Arch)
    requires Ready(cfg, v, l, h, a) && v.sel < 1024 && (l.LoadGo? || l.LoadResume?)
    ensures Coherent(cfg, Following(Two(cfg), l), LineEffect(cfg, v, l, h), a)
    ensures LineEffect(cfg, v, l, h).gpr[S0] == if h.id == v.sel then Flag(v) else 0
  {
    hide AddressOf, ReadWord, Lane;
    FlagByte(cfg, v, h.id);
  }

  lemma BaseAdded(cfg: Config, v: View, l: Loc, h: Hart, a: Arch)
    requires Ready(cfg, v, l, h, a) && (l.AddGo? || l.AddResume?)
    ensures Coherent(cfg, Following(Two(cfg), l), LineEffect(cfg, v, l, h), a)
  {
    hide AddressOf, And;
    WindowArithmetic(cfg, h.id);
  }

  lemma GoTested(cfg: Config, v: View, h: Hart, a: Arch)
    requires Ready(cfg, v, TestGo, h, a)
    ensures Coherent(cfg, Following(Two(cfg), TestGo), LineEffect(cfg, v, TestGo, h), a)
    ensures LineEffect(cfg, v, TestGo, h).gpr[S0] == h.gpr[S0] % 2
  {
    hide AddressOf, And;
    AndSmall(h.gpr[S0]);
  }

  lemma ResumeTested(cfg: Config, v: View, h: Hart, a: Arch)
    requires Ready(cfg, v, TestResume, h, a)
    ensures Coherent(cfg, Following(Two(cfg), TestResume), LineEffect(cfg, v, TestResume, h), a)
    ensures LineEffect(cfg, v, TestResume, h).gpr[S0] == if h.gpr[S0] == 2 then 2 else 0
  {
    hide AddressOf, And;
    AndSmall(h.gpr[S0]);
  }

  /** Forming the flag address and testing one bit of the flag. */
  lemma FlagTested(cfg: Config, v: View, l: Loc, h: Hart, a: Arch)
    requires Ready(cfg, v, l, h, a) && FlagLine(l)
    ensures Coherent(cfg, Following(Two(cfg), l), LineEffect(cfg, v, l, h), a)
    ensures var s0, s0' := h.gpr[S0], LineEffect(cfg, v, l, h).gpr[S0];
      && (l.TestGo? ==> s0' == s0 % 2)
      && (l.TestResume? ==> s0' == if s0 == 2 then 2 else 0)
  {
    CoherentValid(cfg, l, h, a);
    if l.TestGo? {
      hide Coherent, Following, And;
      GoTested(cfg, v, h, a);
    } else if l.TestResume? {
      hide Coherent, Following, And;
      ResumeTested(cfg, v, h, a);
    } else {
      hide AddressOf, And, Coherent, Following;
      BaseAdded(cfg, v, l, h, a);
    }
  }

  lemma NumberLoaded(cfg: Config, v: View, l: Loc, h: Hart, a: Arch)
    requires Ready(cfg, v, l, h, a) && (l.LoopHartId? || l.ResumeHartId? || l.ExitHartId?)
    ensures Coherent(cfg, Following(Two(cfg), l), LineEffect(cfg, v, l, h), a)
  {
    hide AddressOf, ReadWord;
  }

  lemma ReportMade(cfg: Config, v: View, l: Loc, h: Hart, a: Arch)
    requires Ready(cfg, v, l, h, a) && StoreLine(l)
    ensures Coherent(cfg, Following(Two(cfg), l), LineEffect(cfg, v, l, h), a)
  {
    hide AddressOf, ReadWord;
  }

  lemma Reported(cfg: Config, v: View, l: Loc, h: Hart, a: Arch)
    requires Ready(cfg, v, l, h, a)
    requires l.LoopHartId? || l.StoreHalted? || l.ResumeHartId? || l.ExitHartId? || l.StoreResuming?
          || l.StoreGoing? || l.StoreException?
    ensures Coherent(cfg, Following(Two(cfg), l), LineEffect(cfg, v, l, h), a)
  {
    CoherentValid(cfg, l, h, a);
    hide AddressOf, ReadWord, Coherent, At, LineEffect, Following, ValidHart;
    if StoreLine(l) { ReportMade(cfg, v, l, h, a); } else { NumberLoaded(cfg, v, l, h, a); }
  }

  lemma RestoredA0(cfg: Config, v: View, l: Loc, h: Hart, a: Arch)
    requires Ready(cfg, v, l, h, a) && RestoresA0(l)
    ensures Coherent(cfg, Following(Two(cfg), l), LineEffect(cfg, v, l, h), a)
  {
    hide AddressOf, ReadWord;
  }

  lemma RestoredS0(cfg: Config, v: View, l: Loc, h: Hart, a: Arch)
    requires Ready(cfg, v, l, h, a) && RestoreLine(l) && !RestoresA0(l)
    ensures Coherent(cfg, Following(Two(cfg), l), LineEffect(cfg, v, l, h), a)
  {
    hide AddressOf, ReadWord;
  }

  lemma Restored(cfg: Config, v: View, l: Loc, h: Hart, a: Arch)
    requires Ready(cfg, v, l, h, a)
    requires RestoreLine(l)
    ensures Coherent(cfg, Following(Two(cfg), l), LineEffect(cfg, v, l, h), a)
  {
    CoherentValid(cfg, l, h, a);
    hide Coherent, LineEffect, Following, At, ValidHart;
    if RestoresA0(l) { RestoredA0(cfg, v, l, h, a); } else { RestoredS0(cfg, v, l, h, a); }
  }

  lemma SavedOrJumped(cfg: Config, v: View, l: Loc, h: Hart, a: Arch)
    requires Ready(cfg, v, l, h, a)
    requires l.EntryVector? || l.ResumeVector? || l.ExceptionVector? || l.EntryFence? || l.SaveS0? || l.SaveA0?
          || l.LoopBack? || l.ExcEbreak? || l.BranchGo? || l.BranchResume?
    ensures Coherent(cfg, NextLoc(Two(cfg), l, h.gpr[S0]), LineEffect(cfg, v, l, h), a)
  {
    hide AddressOf, ReadWord;
  }

  lemma LineRunsInRom(cfg: Config, v: View, l: Loc, h: Hart, a: Arch)
    requires Ready(cfg, v, l, h, a) && Inner(Two(cfg), l)
    ensures ValidHart(h) && LineRuns(cfg, v, l, h)
  {
    hide Coherent, LineRuns, ValidHart, At, MemoryLine, BaseLine, FlagLine, RestoreLine, EntryLine, JumpLine, Inner;
    LineKinds(Two(cfg), l);
    if JumpLine(l) { JumpLineRuns(cfg, v, l, h, a); }
    else if l.BranchGo? || l.BranchResume? { BranchLineRuns(cfg, v, l, h, a); }
    else { StraightLineRuns(cfg, v, l, h, a); }
  }

  /** What the polls leave in s0. */
  lemma PollValues(cfg: Config, v: View, l: Loc, h: Hart, a: Arch)
    requires Ready(cfg, v, l, h, a) && v.sel < 1024
    ensures ValidHart(h) && ValidHart(LineEffect(cfg, v, l, h))
    ensures var s0, s0' := h.gpr[S0], LineEffect(cfg, v, l, h).gpr[S0];
      && (l.LoadGo? || l.LoadResume? ==> s0' == if h.id == v.sel then Flag(v) else 0)
      && (l.TestGo? ==> s0' == s0 % 2)
      && (l.TestResume? ==> s0' == if s0 == 2 then 2 else 0)
  {
    CoherentValid(cfg, l, h, a);
    if l.LoadGo? || l.LoadResume? { FlagLoaded(cfg, v, l, h, a); }
    if FlagLine(l) { FlagTested(cfg, v, l, h, a); }
    hide Coherent, At, ReadWord, And;
  }

  lemma LineKeepsCoherent(cfg: Config, v: View, l: Loc, h: Hart, a: Arch)
    requires Ready(cfg, v, l, h, a) && v.sel < 1024 && Inner(Two(cfg), l)
    ensures ValidHart(h) && Coherent(cfg, NextLoc(Two(cfg), l, h.gpr[S0]), LineEffect(cfg, v, l, h), a)
  {
    CoherentValid(cfg, l, h, a);
    assert |h.gpr| == 32;
    hide Coherent, LineEffect, Following, ValidHart, At, Inner, Flag;
    LineKinds(Two(cfg), l);
    if JumpLine(l) || l.BranchGo? || l.BranchResume? || l.EntryFence? || l.SaveS0? || l.SaveA0? { SavedOrJumped(cfg, v, l, h, a); }
    else if l.LoadGo? || l.LoadResume? { FlagLoaded(cfg, v, l, h, a); }
    else if BaseLine(l) { BaseComputed(cfg, v, l, h, a); }
    else if FlagLine(l) { FlagTested(cfg, v, l, h, a); }
    else if RestoreLine(l) { Restored(cfg, v, l, h, a); }
    else { Reported(cfg, v, l, h, a); }
  }

  /** Every step of the ROM code that stays in the ROM keeps the program's registers recoverable,
      at the point the listing leads to. */
  lemma StepInRom(cfg: Config, v: View, l: Loc, h: Hart, a: Arch)
    requires Ready(cfg, v, l, h, a) && v.sel < 1024 && Inner(Two(cfg), l)
    ensures StepsTo(cfg, NextLoc(Two(cfg), l, h.gpr[S0]), h, StepHart(cfg, v, h), a)
    ensures RequestOf(cfg, v, h) == AccessAt(l, h.id)
    ensures var s0, s0' := h.gpr[S0], StepHart(cfg, v, h).gpr[S0];
      && (l.LoadGo? || l.LoadResume? ==> s0' == if h.id == v.sel then Flag(v) else 0)
      && (l.TestGo? ==> s0' == s0 % 2)
      && (l.TestResume? ==> s0' == if s0 == 2 then 2 else 0)
  {
    assert ValidHart(h) by { CoherentValid(cfg, l, h, a); }
    assert |h.gpr| == 32;
    hide Instruction, Listing, AddressOf, Perform, AccessOf, AccessAt, Coherent, LineEffect, Following, NextLoc, At, Inner, ValidHart;
    FetchRom(cfg, v, h, l);
    AccessInRom(cfg, h, l, a);
    LineRunsInRom(cfg, v, l, h, a);
    LineKeepsCoherent(cfg, v, l, h, a);
    PollValues(cfg, v, l, h, a);
    EffectKeepsDebug(cfg, v, l, h);
    CoherentAnyPc(cfg, NextLoc(Two(cfg), l, h.gpr[S0]), LineEffect(cfg, v, l, h), StepHart(cfg, v, h).pc, a);
  }

  lemma EffectKeepsDebug(cfg: Config, v: View, l: Loc, h: Hart)
    requires ValidView(v) && ValidHart(h)
    ensures LineEffect(cfg, v, l, h).debug == h.debug
  {
    hide ReadWord;
  }

  lemma CoherentAnyPc(cfg: Config, l: Loc, h: Hart, pc: Word, a: Arch)
    requires Coherent(cfg, l, h, a)
    ensures Coherent(cfg, l, h.(pc := pc), a)
  {
    hide AddressOf;
  }

  lemma RunDret(cfg: Config, v: View, h: Hart)
    requires ValidView(v) && ValidHart(h)
    ensures Perform(cfg, v, h, Dret) == h.(pc := h.csr[CSR_DPC], debug := false)
  {
  }

  lemma ExitsInPlace(cfg: Config, l: Loc, h: Hart, a: Arch)
    requires Coherent(cfg, l, h, a) && (l.GoJump? || l.ExitDret?)
    ensures ValidHart(h) && ArchOf(h) == a
  {
    hide AddressOf;
    LiveMeansInPlace(h, a);
  }

  /** Leaving the ROM: into the command program, or out of debug mode. */
  lemma StepExits(cfg: Config, v: View, l: Loc, h: Hart, a: Arch)
    requires Ready(cfg, v, l, h, a) && (l.GoJump? || l.ExitDret?)
    ensures var h' := Perform(cfg, v, h, Listing(Two(cfg), l));
      && ArchOf(h') == a && ArchOf(h) == a && h'.dscratch0 == h.dscratch0 && h'.dscratch1 == h.dscratch1
      && (l.GoJump? ==> h'.debug == h.debug && h'.pc == cfg.base + WHERETO)
      && (l.ExitDret? ==> !h'.debug && h'.pc == h.csr[CSR_DPC])
  {
    ExitsInPlace(cfg, l, h, a);
    hide AddressOf, Perform, Coherent, ValidHart;
    if l.GoJump? {
      JumpPc(cfg, h, l, WHERETO);
      RunJal(cfg, v, h, WHERETO - AddressOf(Two(cfg), l));
    } else {
      RunDret(cfg, v, h);
    }
  }
}
