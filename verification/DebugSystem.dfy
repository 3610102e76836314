/** The debug module together with its harts, clock by clock. */
module DebugSystem {
  import opened Words
  import Riscv
  import opened DebugRom
  import opened Harts
  import opened AbstractCommands
  import opened DebugMemory
  import opened ParkLoop
  import opened CommandRuns
  import opened CommandRefinement
  import opened ControlRegs

  // ---- State, with the past the properties speak of ------------------------------------------

  /** A command that was started on a hart and the data register at that moment. */
  datatype Job = Job(command: Word, data: Word)

  /** Per hart: its registers at the last debug entry, the commands served since, and the
      registers the debugged program should have now. For the command in progress: its promised
      outcome, whether an exception was reported so far, and a bound on the steps it may take. */
  datatype Past = Past(
    entry: seq<Arch>, log: seq<seq<Job>>, arch: seq<Arch>, promised: Outcome, trapped: bool, budget: nat)

  datatype System = System(csrs: Csrs, mem: Mem, harts: seq<Hart>, past: Past)

  /** What happens in the harts in one clock cycle: at most one of them uses the single port of
      the debug memory. A hart enters debug mode, runs the program being debugged, or executes
      one instruction of the debug memory. */
  datatype Act = NoAct | Exec(k: nat) | Enter(k: nat) | Run(k: nat, after: Hart)

  /** One cycle: a DMI request, a hart action, and what else is on the bus: instruction fetches
      read the memory, and `lines` is the hart number on the write-data lines during reads. */
  datatype Input = Input(op: Dmi, act: Act, fetch: Access, lines: nat)

  function Selected(cfg: Config, s: System): nat {
    HartIndex(cfg.harts, s.csrs.control.hartsel)
  }

  function OneHot(harts: nat, k: nat, b: bool): seq<bool> {
    seq(harts, j => j == k && b)
  }

  function SystemView(cfg: Config, s: System, lines: nat): View {
    View(s.mem.fsm, Selected(cfg, s), s.csrs.command, s.csrs.progbuf, s.csrs.data,
         s.csrs.control.resumereq && lines == Selected(cfg, s) && lines < cfg.harts, s.mem.held)
  }

  /** Shapes of the parts. */
  predicate WellFormed(cfg: Config, s: System) {
    && ValidConfig(cfg) && ValidCsrs(s.csrs) && ValidMem(cfg, s.mem) && |s.harts| == cfg.harts
    && (forall k :: 0 <= k < cfg.harts ==> ValidHart(s.harts[k]) && s.harts[k].id == k)
    && |s.past.entry| == cfg.harts && |s.past.log| == cfg.harts && |s.past.arch| == cfg.harts
    && (forall k :: 0 <= k < cfg.harts ==> ValidArch(s.past.entry[k]) && ValidArch(s.past.arch[k]))
    && s.csrs.control.dmactive && Plain(Two(cfg), s.csrs.command)
    && Selected(cfg, s) < 1024
  }

  predicate Executes(cfg: Config, s: System, i: Input) {
    i.act.Exec? && i.act.k < cfg.harts && i.act.k < |s.harts| && s.harts[i.act.k].debug
  }

  /** The access the debug memory sees. */
  function BusAccess(cfg: Config, s: System, i: Input): Access
    requires WellFormed(cfg, s)
  {
    if Executes(cfg, s, i) && !RequestOf(cfg, SystemView(cfg, s, i.lines), s.harts[i.act.k]).NoAccess?
    then RequestOf(cfg, SystemView(cfg, s, i.lines), s.harts[i.act.k])
    else i.fetch
  }

  function MemInput(cfg: Config, s: System, i: Input): MemIn
    requires WellFormed(cfg, s)
  {
    var sel, a := Selected(cfg, s), BusAccess(cfg, s, i);
    MemIn(sel, OneHot(cfg.harts, sel, s.csrs.control.haltreq), OneHot(cfg.harts, sel, s.csrs.control.resumereq),
          ClearsResumeAck(s.csrs, i.op), s.csrs.cmdValid, s.csrs.command, s.csrs.progbuf, s.csrs.data,
          a, if a.WriteAt? then HartIndex(cfg.harts, a.wdata) else i.lines)
  }

  function CsrInput(cfg: Config, s: System, i: Input): CsrIn
    requires WellFormed(cfg, s) && ValidMemIn(MemInput(cfg, s, i))
  {
    var m := MemInput(cfg, s, i);
    CsrIn(i.op, !s.mem.fsm.Idle?, ErrorOf(s.mem, m), WritesData(m), DataOut(m), s.mem.resuming)
  }

  function Entered(cfg: Config, h: Hart): Hart {
    h.(pc := Wrap(cfg.base + ROM), debug := true, csr := h.csr[CSR_DPC := h.pc])
  }

  function NextHarts(cfg: Config, s: System, i: Input): seq<Hart>
    requires WellFormed(cfg, s)
  {
    match i.act
    case NoAct => s.harts
    case Exec(k) =>
      if Executes(cfg, s, i) then s.harts[k := StepHart(cfg, SystemView(cfg, s, i.lines), s.harts[k])] else s.harts
    case Enter(k) => if k < cfg.harts then s.harts[k := Entered(cfg, s.harts[k])] else s.harts
    case Run(k, after) => if k < cfg.harts then s.harts[k := after] else s.harts
  }

  predicate Goes(cfg: Config, s: System, i: Input)
    requires WellFormed(cfg, s)
  {
    s.mem.fsm.Go? && Writes(MemInput(cfg, s, i), GOING) && Selected(cfg, s) < cfg.harts
  }

  /** The past is extended when a hart enters debug mode, when it starts a command, and with
      each of its steps during the command. */
  function NextPast(cfg: Config, s: System, i: Input): Past
    requires WellFormed(cfg, s)
  {
    var p, sel := s.past, Selected(cfg, s);
    if i.act.Enter? && i.act.k < cfg.harts then
      var a := ArchOf(Entered(cfg, s.harts[i.act.k]));
      p.(entry := p.entry[i.act.k := a], log := p.log[i.act.k := []], arch := p.arch[i.act.k := a])
    else if Goes(cfg, s, i) then
      var out := ProgramAccess(Two(cfg), s.csrs.command, p.arch[sel], s.csrs.data[0]);
      p.(log := p.log[sel := p.log[sel] + [Job(s.csrs.command, s.csrs.data[0])]],
         arch := p.arch[sel := out.arch], promised := out, trapped := false, budget := 28)
    else if s.mem.fsm.CmdExecuting? && Executes(cfg, s, i) && i.act.k == sel then
      p.(trapped := p.trapped || IsWriteTo(BusAccess(cfg, s, i), EXCEPTION),
         budget := if p.budget > 0 then p.budget - 1 else 0)
    else p
  }

  /** All parts advance on the same clock edge. */
  function Step(cfg: Config, s: System, i: Input): System
    requires WellFormed(cfg, s) && ValidMemIn(MemInput(cfg, s, i))
  {
    System(NextCsrs(s.csrs, CsrInput(cfg, s, i)), NextMem(cfg, s.mem, MemInput(cfg, s, i)),
           NextHarts(cfg, s, i), NextPast(cfg, s, i))
  }

  /** What the environment does and does not. The debugger touches dmcontrol only while no
      command is running or about to run, keeps the module active and the harts out of reset,
      and writes plain commands. Harts outside debug mode run freely. */
  predicate Legal(cfg: Config, s: System, i: Input)
    requires WellFormed(cfg, s)
  {
    && (i.op.Write? && i.op.addr == DMCONTROL ==>
          s.mem.fsm.Idle? && NextFsm(s.mem, MemInput(cfg, s, i)).Idle?
          && ControlOf(i.op.data).dmactive && !ControlOf(i.op.data).ndmreset)
    && (i.op.Write? && i.op.addr == COMMAND ==> Plain(Two(cfg), i.op.data))
    && (i.fetch.NoAccess? || (i.fetch.ReadAt? && i.fetch.offset < 0x1000))
    && match i.act
       case NoAct => true
       case Exec(k) => k < cfg.harts && s.harts[k].debug
       case Enter(k) => k < cfg.harts && !s.harts[k].debug
       case Run(k, after) =>
         k < cfg.harts && !s.harts[k].debug && ValidHart(after) && after.id == k && !after.debug
  }

  /** A fetch by a hart is answered from the view its step is computed on. */
  lemma ReadsAgree(cfg: Config, s: System, i: Input)
    requires WellFormed(cfg, s) && Legal(cfg, s, i) && BusAccess(cfg, s, i).ReadAt?
    ensures ViewOf(s.mem, MemInput(cfg, s, i)) == SystemView(cfg, s, i.lines)
  {
    hide RequestOf, HartIndex;
  }

  // ---- Roles of a parked hart ------------------------------------------------------------------

  /** The hart has seen the go flag and will report GOING. */
  predicate CommitsGo(l: Loc, s0: Word) {
    l.StoreGoing? || (l.TestGo? && s0 % 2 == 1) || (l.BranchGo? && s0 != 0)
  }

  /** The hart has seen the resume flag and will report RESUMING. */
  predicate CommitsResume(l: Loc, s0: Word) {
    l.ResumeVector? || l.ExitHartId? || l.StoreResuming? || (l.TestResume? && s0 == 2) || (l.BranchResume? && s0 != 0)
  }

  /** The hart has reported RESUMING. */
  predicate Leaving(l: Loc) {
    l.ExitRestoreA0? || l.ExitRestoreS0? || l.ExitDret?
  }

  /** Points that belong to a running command. */
  predicate InCommand(l: Loc) {
    l.GoRestoreA0? || l.GoRestoreS0? || l.GoJump? || l.ExceptionVector? || l.ExcAuipc? || l.ExcSrli? || l.ExcSlli?
    || l.StoreException? || l.ExcRestoreA0? || l.ExcRestoreS0? || l.ExcEbreak?
  }

  /** Where a parked hart may be: with the go flag raised for it, with the resume flag raised for
      it and not yet answered, and while the controller takes it for halted. */
  predicate Allowed(l: Loc, s0: Word, go: bool, resume: bool, halted: bool) {
    && !InCommand(l) && (CommitsGo(l, s0) ==> go) && (CommitsResume(l, s0) ==> resume)
    && (Leaving(l) ==> !halted)
  }

  function PointOf(cfg: Config, h: Hart): Loc {
    if cfg.base <= h.pc then LocAt(Two(cfg), h.pc - cfg.base) else Nowhere
  }

  /** The registers of the debugged program, read off the hart alone: s0 and a0 from the register
      itself where they are live, else from the scratch register that stores them. */
  function ProgramRegisters(cfg: Config, h: Hart): Arch
    requires ValidHart(h)
  {
    var l, two := PointOf(cfg, h), Two(cfg);
    var s0, a0 := if S0Live(l) then h.gpr[S0] else h.dscratch0, if A0Live(two, l) then h.gpr[A0] else h.dscratch1;
    ArchOf(h).(gpr := h.gpr[S0 := s0][A0 := a0])
  }

  /** At every program point of a coherent hart they are the registers of the program. */
  lemma CoherentRegisters(cfg: Config, l: Loc, h: Hart, a: Arch)
    requires At(cfg, h, l) && Coherent(cfg, l, h, a)
    ensures ValidHart(h) && ProgramRegisters(cfg, h) == a
  {
    CoherentValid(cfg, l, h, a);
    PointAt(cfg, h, l);
    hide AddressOf, LocAt, PointOf, At;
    SomewhereStored(Two(cfg), l);
    hide S0Live, S0Stored, A0Live, A0Stored;
    assert h.gpr[S0 := a.gpr[S0]][A0 := a.gpr[A0]] == a.gpr;
  }

  lemma SomewhereStored(two: bool, l: Loc)
    ensures S0Live(l) || S0Stored(l)
    ensures A0Live(two, l) || A0Stored(two, l)
  {
  }

  predicate Parked(cfg: Config, h: Hart, a: Arch, go: bool, resume: bool, halted: bool) {
    var l := PointOf(cfg, h);
    At(cfg, h, l) && Coherent(cfg, l, h, a) && h.debug && Allowed(l, h.gpr[S0], go, resume, halted)
  }

  lemma PointAt(cfg: Config, h: Hart, l: Loc)
    requires At(cfg, h, l)
    ensures PointOf(cfg, h) == l
  {
    hide LocAt, AddressOf;
    LocAtAddressOf(Two(cfg), l);
  }

  /** One step of a parked hart that reports neither GOING nor RESUMING keeps its role. */
  lemma AllowedStep(two: bool, l: Loc, s0: Word, s0': Word, go: bool, resume: bool, halted: bool)
    requires Inner(two, l) && Allowed(l, s0, go, resume, halted) && !l.StoreGoing? && !l.StoreResuming?
    requires l.LoadGo? ==> s0' == (if go then 1 else if s0' == 2 then 2 else 0)
    requires l.LoadResume? ==> s0' == (if resume then 2 else if s0' == 1 then 1 else 0)
    requires l.TestGo? ==> s0' == s0 % 2
    requires l.TestResume? ==> s0' == if s0 == 2 then 2 else 0
    ensures Allowed(NextLoc(two, l, s0), s0', go, resume, halted)
    ensures l.StoreHalted? ==> Allowed(NextLoc(two, l, s0), s0', go, resume, true)
  {
    StaysInLoop(two, l, s0);
    hide Following, Exists;
    if l.LoadGo? || l.LoadResume? || l.TestGo? || l.TestResume? || l.BranchGo? || l.BranchResume? { PollSuccessors(two, l); }
    else { OtherSuccessors(two, l); }
  }

  lemma StaysInLoop(two: bool, l: Loc, s0: Word)
    requires Inner(two, l) && !InCommand(l)
    ensures !l.StoreGoing? ==> !InCommand(NextLoc(two, l, s0))
    ensures Leaving(NextLoc(two, l, s0)) ==> Leaving(l) || l.StoreResuming?
  {
  }

  lemma PollSuccessors(two: bool, l: Loc)
    ensures l.LoadGo? ==> Following(two, l).TestGo?
    ensures l.TestGo? ==> Following(two, l).BranchGo?
    ensures l.BranchGo? ==> Following(two, l).ResumeHartId?
    ensures l.LoadResume? ==> Following(two, l).TestResume?
    ensures l.TestResume? ==> Following(two, l).BranchResume?
    ensures l.BranchResume? ==> Following(two, l).LoopBack?
  {
  }

  lemma OtherSuccessors(two: bool, l: Loc)
    requires !l.LoadGo? && !l.LoadResume? && !l.TestGo? && !l.TestResume? && !l.BranchGo? && !l.BranchResume?
    ensures var n := Following(two, l);
      && !n.StoreGoing? && !n.TestGo? && !n.BranchGo? && !n.TestResume? && !n.BranchResume? && !n.ResumeVector?
      && (n.ExitHartId? ==> l.ResumeVector?) && (n.StoreResuming? ==> l.ExitHartId?)
  {
  }

  // ---- The invariant ---------------------------------------------------------------------------

  /** What a running command depends on. */
  function FrozenView(cfg: Config, s: System): View {
    View(CmdExecuting, Selected(cfg, s), s.csrs.command, s.csrs.progbuf, s.csrs.data, false, ZERO_DOUBLEWORD)
  }

  predicate RaisesGo(cfg: Config, s: System, k: nat) {
    s.mem.fsm.Go? && k == Selected(cfg, s)
  }

  predicate RaisesResume(cfg: Config, s: System, k: nat) {
    s.mem.fsm.Resume? && k == Selected(cfg, s) && !Bit(s.mem.resuming, k)
  }

  /** Hart `k` runs the command of the controller. */
  predicate InProgram(cfg: Config, s: System, k: nat) {
    s.mem.fsm.CmdExecuting? && k == Selected(cfg, s)
  }

  /** The command in progress will end as promised. */
  predicate Fulfilling(cfg: Config, s: System, k: nat)
    requires WellFormed(cfg, s) && k < cfg.harts
  {
    && Ends(cfg, FrozenView(cfg, s), Solo(s.harts[k], s.csrs.data[0], s.past.trapped), s.past.budget, s.past.promised)
    && s.past.promised.arch == s.past.arch[k]
  }

  predicate HartOk(cfg: Config, s: System, k: nat)
    requires WellFormed(cfg, s) && k < cfg.harts
  {
    if !s.harts[k].debug then !s.mem.halted[k] && !InProgram(cfg, s, k)
    else if InProgram(cfg, s, k) then Fulfilling(cfg, s, k)
    else Parked(cfg, s.harts[k], s.past.arch[k], RaisesGo(cfg, s, k), RaisesResume(cfg, s, k), s.mem.halted[k])
  }

  predicate FsmOk(cfg: Config, s: System)
    requires WellFormed(cfg, s)
  {
    var sel := Selected(cfg, s);
    && (!s.mem.fsm.Idle? ==> sel < cfg.harts)
    && (s.mem.fsm.CmdExecuting? ==> !s.csrs.cmdValid && (s.past.trapped ==> s.csrs.cmderr == Code(ErrException)))
    && (s.mem.fsm.Go? || RaisesResume(cfg, s, sel) ==> s.mem.halted[sel])
    && (s.mem.fsm.Resume? && s.mem.resuming[sel] ==> s.harts[sel].debug && Leaving(PointOf(cfg, s.harts[sel])))
  }

  predicate Invariant(cfg: Config, s: System) {
    WellFormed(cfg, s) && FsmOk(cfg, s) && forall k: nat :: k < cfg.harts ==> HartOk(cfg, s, k)
  }

  /** Standing at an allowed point is being parked. */
  lemma ParkedAt(cfg: Config, s: System, k: nat, l: Loc)
    requires WellFormed(cfg, s) && k < cfg.harts && !InProgram(cfg, s, k)
    requires s.harts[k].debug && At(cfg, s.harts[k], l) && Coherent(cfg, l, s.harts[k], s.past.arch[k])
    requires Allowed(l, s.harts[k].gpr[S0], RaisesGo(cfg, s, k), RaisesResume(cfg, s, k), s.mem.halted[k])
    ensures HartOk(cfg, s, k) && PointOf(cfg, s.harts[k]) == l
  {
    hide Coherent, Allowed, At, PointOf;
    PointAt(cfg, s.harts[k], l);
  }

  // ---- What a parked hart puts on the bus ---------------------------------------------------------

  /** Hart `k` is parked at `l`. */
  predicate Stands(cfg: Config, s: System, k: nat, l: Loc)
    requires WellFormed(cfg, s)
  {
    && k < cfg.harts && s.harts[k].debug && At(cfg, s.harts[k], l) && Coherent(cfg, l, s.harts[k], s.past.arch[k])
    && Allowed(l, s.harts[k].gpr[S0], RaisesGo(cfg, s, k), RaisesResume(cfg, s, k), s.mem.halted[k])
  }

  lemma ParkedStands(cfg: Config, s: System, k: nat)
    requires WellFormed(cfg, s) && k < cfg.harts && s.harts[k].debug && HartOk(cfg, s, k) && !InProgram(cfg, s, k)
    ensures Stands(cfg, s, k, PointOf(cfg, s.harts[k]))
  {
    hide Coherent, Allowed, At, PointOf;
  }

  /** The step of a parked hart that stays in the ROM: where it goes and what the bus sees. */
  lemma ParkedMoves(cfg: Config, s: System, i: Input, k: nat, l: Loc)
    requires WellFormed(cfg, s) && Stands(cfg, s, k, l) && i.act == Exec(k) && Inner(Two(cfg), l)
    ensures var h, h' := s.harts[k], StepHart(cfg, SystemView(cfg, s, i.lines), s.harts[k]);
      && StepsTo(cfg, NextLoc(Two(cfg), l, h.gpr[S0]), h, h', s.past.arch[k])
      && (AccessAt(l, k).NoAccess? ==> BusAccess(cfg, s, i) == i.fetch)
      && (!AccessAt(l, k).NoAccess? ==> BusAccess(cfg, s, i) == AccessAt(l, k))
      && (l.LoadGo? || l.LoadResume? ==> h'.gpr[S0] == if k == Selected(cfg, s) then Flag(SystemView(cfg, s, i.lines)) else 0)
      && (l.TestGo? ==> h'.gpr[S0] == h.gpr[S0] % 2)
      && (l.TestResume? ==> h'.gpr[S0] == if h.gpr[S0] == 2 then 2 else 0)
  {
    hide Coherent, Allowed, At, StepHart, RequestOf, AccessAt, StepsTo, Flag, ValidHart, Selected, Inner, NextLoc;
    StepInRom(cfg, SystemView(cfg, s, i.lines), l, s.harts[k], s.past.arch[k]);
  }

  /** The truncation of hart numbers is invisible for existing harts, and keeps the selection in
      the flag window. */
  lemma IndexOfHart(harts: nat, k: nat)
    requires k < harts
    ensures HartIndex(harts, k) == k
  {
    hide PowerFrom;
    SplitAt(0, k, Aligned(harts));
  }

  lemma AlignedInWindow(harts: nat)
    requires harts <= 1024
    ensures Aligned(harts) <= 1024
  {
    assert PowerFrom(1024, harts) == 1024;
    assert PowerFrom(512, harts) <= 1024;
    assert PowerFrom(256, harts) <= 1024;
    assert PowerFrom(128, harts) <= 1024;
    assert PowerFrom(64, harts) <= 1024;
    assert PowerFrom(32, harts) <= 1024;
    assert PowerFrom(16, harts) <= 1024;
    assert PowerFrom(8, harts) <= 1024;
    assert PowerFrom(4, harts) <= 1024;
  }

  // ---- A running command and its frozen view ----------------------------------------------------

  /** Two views that differ only in the held row and the resume request of the read. */
  predicate SameCommand(v: View, w: View) {
    v.(whereToResume := w.whereToResume, held := w.held) == w
  }

  lemma SteadyRead(cfg: Config, v: View, w: View, offset: nat)
    requires ValidView(v) && ValidView(w) && SameCommand(v, w) && BusyView(v) && SteadyOffset(offset)
    ensures ReadWord(cfg, v, offset) == ReadWord(cfg, w, offset)
  {
    hide CommandWords, RomRow;
  }

  /** A quiet step is the same on both. */
  lemma SteadyStep(cfg: Config, v: View, w: View, h: Hart)
    requires ValidView(v) && ValidView(w) && SameCommand(v, w) && BusyView(v) && ValidHart(h)
    requires Quiet(cfg, h, RequestOf(cfg, w, h))
    ensures RequestOf(cfg, v, h) == RequestOf(cfg, w, h) && StepHart(cfg, v, h) == StepHart(cfg, w, h)
  {
    hide ReadWord, Riscv.Decode, Execute, AccessOf, SteadyOffset, BusyView, SameCommand, ValidHart;
    assert SteadyOffset(h.pc - cfg.base) && h.pc - cfg.base >= 0 by { SteadyPositive(h.pc - cfg.base); }
    SteadyRead(cfg, v, w, h.pc - cfg.base);
    var a := RequestOf(cfg, w, h);
    if a.ReadAt? { SteadyRead(cfg, v, w, a.offset); }
  }

  lemma SteadyPositive(offset: int)
    requires SteadyOffset(offset)
    ensures 0 <= offset < 0x1000
  {
  }

  lemma FrozenIsCurrent(cfg: Config, s: System, lines: nat)
    requires WellFormed(cfg, s) && s.mem.fsm.CmdExecuting?
    ensures SoloView(FrozenView(cfg, s), s.csrs.data[0]) == FrozenView(cfg, s)
    ensures SameCommand(SystemView(cfg, s, lines), FrozenView(cfg, s)) && BusyView(SystemView(cfg, s, lines))
  {
    assert s.csrs.data[0 := s.csrs.data[0]] == s.csrs.data;
  }

  /** The promised end, unfolded by one step. */
  lemma EndsUnfold(cfg: Config, v: View, s: Solo, n: nat, out: Outcome)
    requires ValidView(v) && Ends(cfg, v, s, n, out)
    ensures ValidHart(s.hart) && s.hart.debug
    ensures At(cfg, s.hart, StoreHalted) ==>
      Coherent(cfg, StoreHalted, s.hart, out.arch) && s.data == out.data && s.trapped == out.trapped
    ensures !At(cfg, s.hart, StoreHalted) ==>
      n > 0 && Quiet(cfg, s.hart, SoloRequest(cfg, v, s)) && Ends(cfg, v, SoloStep(cfg, v, s), n - 1, out)
  {
    hide At, Coherent, Quiet, SoloRequest, SoloStep, ValidHart;
  }

  /** One step of the executing hart, not yet at its report. */
  lemma ProgramStep(cfg: Config, s: System, i: Input, k: nat)
    requires WellFormed(cfg, s) && i.act == Exec(k) && k < cfg.harts && InProgram(cfg, s, k)
    requires Fulfilling(cfg, s, k) && !At(cfg, s.harts[k], StoreHalted)
    ensures s.harts[k].debug && s.past.budget > 0
    ensures var w, h := SystemView(cfg, s, i.lines), s.harts[k];
      && Quiet(cfg, h, RequestOf(cfg, w, h))
      && Ends(cfg, FrozenView(cfg, s),
              Solo(StepHart(cfg, w, h), DataAfter(s.csrs.data[0], RequestOf(cfg, w, h)),
                   s.past.trapped || IsWriteTo(RequestOf(cfg, w, h), EXCEPTION)),
              s.past.budget - 1, s.past.promised)
  {
    hide Ends, At, Quiet, RequestOf, StepHart, FrozenView, SystemView, SameCommand, BusyView, DataAfter, ValidHart, IsWriteTo;
    assert ValidView(FrozenView(cfg, s)) && ValidView(SystemView(cfg, s, i.lines)) by { ViewsValid(cfg, s, i.lines); }
    FrozenIsCurrent(cfg, s, i.lines);
    EndsUnfold(cfg, FrozenView(cfg, s), Solo(s.harts[k], s.csrs.data[0], s.past.trapped), s.past.budget, s.past.promised);
    SteadyStep(cfg, SystemView(cfg, s, i.lines), FrozenView(cfg, s), s.harts[k]);
  }

  lemma ViewsValid(cfg: Config, s: System, lines: nat)
    requires WellFormed(cfg, s)
    ensures ValidView(FrozenView(cfg, s)) && ValidView(SystemView(cfg, s, lines))
  {
  }

  // ---- Every bus report comes from the hart it should come from -----------------------------------

  /** The hart that makes a step is either parked or running the command of the controller. */
  predicate Reporting(cfg: Config, s: System, i: Input)
    requires WellFormed(cfg, s)
  {
    var m := MemInput(cfg, s, i);
    && (forall k: nat :: k < cfg.harts && Reports(m, RESUMING, k) ==> i.act == Exec(k) && Stands(cfg, s, k, StoreResuming))
    && (Writes(m, GOING) ==> i.act == Exec(m.sel) && Stands(cfg, s, m.sel, StoreGoing))
    && (forall k: nat :: k < cfg.harts && Reports(m, HALTED, k) ==> i.act == Exec(k) && At(cfg, s.harts[k], StoreHalted))
    && (Writes(m, EXCEPTION) || WritesData(m) ==> i.act == Exec(m.sel) && InProgram(cfg, s, m.sel))
    && (m.access.WriteAt? ==> i.act.Exec?)
    && ValidMemIn(m)
  }

  /** Nothing but reads reach the bus unless a hart makes a step. */
  lemma QuietBusReports(cfg: Config, s: System, i: Input)
    requires WellFormed(cfg, s) && Legal(cfg, s, i) && BusAccess(cfg, s, i) == i.fetch
    ensures Reporting(cfg, s, i)
  {
    hide Stands, BusAccess, HartIndex;
  }

  lemma ParkedReports(cfg: Config, s: System, i: Input, k: nat, l: Loc)
    requires WellFormed(cfg, s) && Legal(cfg, s, i) && i.act == Exec(k) && Stands(cfg, s, k, l)
    ensures Reporting(cfg, s, i)
  {
    hide AddressOf, Coherent, RequestOf, StepHart, HartIndex, StepsTo, Stands, Reporting, Legal, BusAccess, At, Following, NextLoc;
    if l.ExitDret? {
      DretIsSilent(cfg, s, i, k);
      QuietBusReports(cfg, s, i);
    } else {
      StandsInner(cfg, s, k, l);
      ParkedMoves(cfg, s, i, k, l);
      if AccessAt(l, k).NoAccess? { QuietBusReports(cfg, s, i); } else { RomReports(cfg, s, i, k, l); }
    }
  }

  lemma StandsInner(cfg: Config, s: System, k: nat, l: Loc)
    requires WellFormed(cfg, s) && Stands(cfg, s, k, l)
    ensures k < cfg.harts <= 1024 && (Inner(Two(cfg), l) || l.ExitDret?)
  {
    hide AddressOf, Coherent;
  }

  /** The reports and polls of the ROM. */
  lemma RomReports(cfg: Config, s: System, i: Input, k: nat, l: Loc)
    requires WellFormed(cfg, s) && Legal(cfg, s, i) && i.act == Exec(k) && Stands(cfg, s, k, l)
    requires BusAccess(cfg, s, i) == AccessAt(l, k) != NoAccess
    ensures Reporting(cfg, s, i)
  {
    hide AddressOf, Coherent, HartIndex, BusAccess;
    IndexOfHart(cfg.harts, k);
  }

  lemma DretIsSilent(cfg: Config, s: System, i: Input, k: nat)
    requires WellFormed(cfg, s) && i.act == Exec(k) && Stands(cfg, s, k, ExitDret)
    ensures RequestOf(cfg, SystemView(cfg, s, i.lines), s.harts[k]).NoAccess?
    ensures BusAccess(cfg, s, i) == i.fetch
    ensures var h := StepHart(cfg, SystemView(cfg, s, i.lines), s.harts[k]);
      !h.debug && ArchOf(h) == s.past.arch[k] && ValidHart(h) && h.pc == h.csr[CSR_DPC]
  {
    hide Coherent, Instruction, Perform, ValidHart;
    var v, h := SystemView(cfg, s, i.lines), s.harts[k];
    FetchRom(cfg, v, h, ExitDret);
    StepExits(cfg, v, ExitDret, h, s.past.arch[k]);
    StepKeepsValid(cfg, v, h, Listing(Two(cfg), ExitDret));
  }

  lemma RequestShape(cfg: Config, v: View, h: Hart)
    requires ValidView(v) && ValidHart(h)
    ensures RequestOf(cfg, v, h).ReadAt? ==> RequestOf(cfg, v, h).offset < 0x1000
    ensures RequestOf(cfg, v, h).WriteAt? ==> |RequestOf(cfg, v, h).be| == 4
  {
    hide Instruction, Address;
  }

  /** The executing hart at its report: the command has been served as promised. */
  lemma ProgramReturns(cfg: Config, s: System, i: Input, k: nat)
    requires WellFormed(cfg, s) && i.act == Exec(k) && k < cfg.harts && InProgram(cfg, s, k)
    requires Fulfilling(cfg, s, k) && At(cfg, s.harts[k], StoreHalted)
    ensures s.harts[k].debug
    ensures BusAccess(cfg, s, i) == AccessAt(StoreHalted, k)
    ensures StepsTo(cfg, Following(Two(cfg), StoreHalted), s.harts[k],
                    StepHart(cfg, SystemView(cfg, s, i.lines), s.harts[k]), s.past.arch[k])
    ensures s.csrs.data[0] == s.past.promised.data && s.past.trapped == s.past.promised.trapped
  {
    hide Ends, At, Coherent, RequestOf, StepHart, FrozenView, ValidHart, StepsTo, Selected;
    assert ValidView(FrozenView(cfg, s)) && ValidView(SystemView(cfg, s, i.lines)) by { ViewsValid(cfg, s, i.lines); }
    EndsUnfold(cfg, FrozenView(cfg, s), Solo(s.harts[k], s.csrs.data[0], s.past.trapped), s.past.budget, s.past.promised);
    StepInRom(cfg, SystemView(cfg, s, i.lines), StoreHalted, s.harts[k], s.past.arch[k]);
  }

  lemma ProgramReports(cfg: Config, s: System, i: Input, k: nat)
    requires WellFormed(cfg, s) && Legal(cfg, s, i) && i.act == Exec(k) && InProgram(cfg, s, k) && Fulfilling(cfg, s, k)
    ensures Reporting(cfg, s, i)
  {
    hide Ends, At, StepHart, HartIndex, FrozenView, Fulfilling, Stands, SystemView, ValidHart, Selected, StepsTo, RequestOf;
    IndexOfHart(cfg.harts, k);
    if At(cfg, s.harts[k], StoreHalted) {
      ProgramReturns(cfg, s, i, k);
    } else {
      ProgramStep(cfg, s, i, k);
      ViewsValid(cfg, s, i.lines);
      RequestShape(cfg, SystemView(cfg, s, i.lines), s.harts[k]);
    }
  }

  /** In every reachable state each report on the bus is made by the hart it should come from, at
      the point of the ROM it should come from. */
  lemma ReportsAreGenuine(cfg: Config, s: System, i: Input)
    requires Invariant(cfg, s) && Legal(cfg, s, i)
    ensures Reporting(cfg, s, i)
  {
    hide Reporting, Parked, Fulfilling, BusAccess, Stands, PointOf, At;
    if i.act.Exec? {
      var k := i.act.k;
      assert HartOk(cfg, s, k);
      if InProgram(cfg, s, k) {
        ProgramReports(cfg, s, i, k);
      } else {
        ParkedStands(cfg, s, k);
        ParkedReports(cfg, s, i, k, PointOf(cfg, s.harts[k]));
      }
    } else {
      assert BusAccess(cfg, s, i) == i.fetch by { NoStepNoAccess(cfg, s, i); }
      QuietBusReports(cfg, s, i);
    }
  }

  lemma NoStepNoAccess(cfg: Config, s: System, i: Input)
    requires WellFormed(cfg, s) && !i.act.Exec?
    ensures BusAccess(cfg, s, i) == i.fetch
  {
  }

  // ---- What a clock edge does to the controller and the registers -----------------------------------

  /** A legal cycle whose bus reports are genuine. */
  predicate Sound(cfg: Config, s: System, i: Input) {
    WellFormed(cfg, s) && FsmOk(cfg, s) && Legal(cfg, s, i) && Reporting(cfg, s, i)
  }

  lemma SoundParts(cfg: Config, s: System, i: Input)
    requires Sound(cfg, s, i)
    ensures WellFormed(cfg, s) && FsmOk(cfg, s) && Legal(cfg, s, i) && Reporting(cfg, s, i) && ValidMemIn(MemInput(cfg, s, i))
  {
    hide WellFormed, FsmOk, Legal, ValidMemIn, MemInput, Stands, Reports, Writes;
  }

  lemma Shapes(cfg: Config, s: System, k: nat)
    requires WellFormed(cfg, s) && k < cfg.harts
    ensures |s.harts| == cfg.harts && |s.past.arch| == cfg.harts && |s.mem.halted| == cfg.harts && |s.mem.resuming| == cfg.harts
    ensures ValidHart(s.harts[k]) && |s.harts[k].gpr| == 32 && |s.csrs.data| == 2 && ValidArch(s.past.arch[k])
  {
  }

  /** While a command is running or about to run the selection and the acknowledgements hold. */
  lemma SelectionKept(cfg: Config, s: System, i: Input)
    requires Sound(cfg, s, i)
    requires !s.mem.fsm.Idle? || !Step(cfg, s, i).mem.fsm.Idle?
    ensures Selected(cfg, Step(cfg, s, i)) == Selected(cfg, s)
    ensures !MemInput(cfg, s, i).clearResumeAck
  {
    hide HartIndex, Stands, BusAccess, ControlOf, NextPast, NextHarts;
  }

  lemma {:induction false} StepShapes(cfg: Config, s: System, i: Input)
    requires Sound(cfg, s, i)
    ensures var s' := Step(cfg, s, i);
      && ValidCsrs(s'.csrs) && ValidMem(cfg, s'.mem) && s'.csrs.control.dmactive && Selected(cfg, s') < 1024
      && Plain(Two(cfg), s'.csrs.command)
  {
    hide Stands, BusAccess, ControlOf, NextPast, NextHarts, Plain, NextFsm, NextData, NextProgbuf, NextAuto, StartsCommand, NextCmdErr;
    StaysValid(s.csrs, CsrInput(cfg, s, i));
    NextVectorLengths(s.mem, MemInput(cfg, s, i));
    AlignedInWindow(cfg.harts);
  }

  /** From its first cycle to its last, nothing a running command depends on changes, except
      data through the hart. */
  lemma CommandKept(cfg: Config, s: System, i: Input)
    requires Sound(cfg, s, i) && !s.mem.fsm.Idle?
    ensures var c, c', m := s.csrs, Step(cfg, s, i).csrs, MemInput(cfg, s, i);
      && c'.command == c.command && c'.progbuf == c.progbuf && !c'.cmdValid
      && c'.data == (if WritesData(m) then c.data[0 := DataAfter(c.data[0], m.access)] else c.data)
      && (Writes(m, EXCEPTION) ==> c'.cmderr == Code(ErrException))
      && (c.cmderr == Code(ErrException) && !c.cmdValid ==> c'.cmderr == Code(ErrException))
  {
    hide Stands, BusAccess, ControlOf, NextPast, NextHarts, Plain, Merge, NextMem, Unsupported, BitAt, HartIndex, NextCsrs;
    BusyProtects(s.csrs, CsrInput(cfg, s, i));
    BusyErrors(s.csrs, CsrInput(cfg, s, i));
  }

  lemma BusyErrors(c: Csrs, i: CsrIn)
    requires ValidCsrs(c) && ValidCsrIn(i) && i.busy && c.control.dmactive
    ensures i.error != ErrNone ==> NextCsrs(c, i).cmderr == Code(i.error)
    ensures i.error == ErrNone && c.cmderr != 0 ==> NextCsrs(c, i).cmderr == c.cmderr
  {
  }

  /** Raised flags stay raised until they are answered; halted bits follow the reports. */
  lemma FlagsKept(cfg: Config, s: System, i: Input, k: nat)
    requires Sound(cfg, s, i) && k < cfg.harts
    ensures var s', m := Step(cfg, s, i), MemInput(cfg, s, i);
      && |s'.mem.halted| == cfg.harts && |s'.mem.resuming| == cfg.harts
      && (RaisesGo(cfg, s, k) && !Writes(m, GOING) ==> RaisesGo(cfg, s', k))
      && (RaisesResume(cfg, s, k) && !Reports(m, RESUMING, k) ==> RaisesResume(cfg, s', k))
      && (s'.mem.halted[k] ==> s.mem.halted[k] || Reports(m, HALTED, k))
      && (s.mem.halted[k] ==> s'.mem.halted[k] || Reports(m, RESUMING, k))
      && (InProgram(cfg, s', k) ==> InProgram(cfg, s, k) || (Writes(m, GOING) && k == m.sel && s.mem.fsm.Go?))
      && (InProgram(cfg, s, k) ==> InProgram(cfg, s', k) || Reports(m, HALTED, k))
  {
    hide Stands, BusAccess, NextPast, NextHarts, NextCsrs, HartIndex, Selected, WantsGo, WantsResume;
    if !s.mem.fsm.Idle? || !Step(cfg, s, i).mem.fsm.Idle? { SelectionKept(cfg, s, i); }
    NextVectorLengths(s.mem, MemInput(cfg, s, i));
  }

  // ---- The invariant is kept --------------------------------------------------------------------

  /** A hart that does not move keeps its role. */
  lemma HartStays(cfg: Config, s: System, i: Input, k: nat)
    requires Sound(cfg, s, i) && k < cfg.harts && HartOk(cfg, s, k)
    requires i.act != Exec(k) && i.act != Enter(k) && !(i.act.Run? && i.act.k == k)
    requires WellFormed(cfg, Step(cfg, s, i))
    ensures HartOk(cfg, Step(cfg, s, i), k)
  {
    hide Ends, At, Coherent, Stands, BusAccess, NextCsrs, NextMem, HartIndex, Selected, ControlOf, Writes, RequestOf, StepHart, PointOf,
      Allowed, Sound, WellFormed, FsmOk, Legal, Reporting, ValidMemIn, MemInput, Step, Reports, ValidHart;
    SoundParts(cfg, s, i);
    Shapes(cfg, s, k);
    Shapes(cfg, Step(cfg, s, i), k);
    var s' := Step(cfg, s, i);
    FlagsKept(cfg, s, i, k);
    NotMoved(cfg, s, i, k);
    ReportsNothing(cfg, s, i, k);
    if InProgram(cfg, s, k) {
      CommandKept(cfg, s, i);
      SelectionKept(cfg, s, i);
      assert FrozenView(cfg, s') == FrozenView(cfg, s);
    } else if s.harts[k].debug {
      AllowedWeakens(PointOf(cfg, s.harts[k]), s.harts[k].gpr[S0], RaisesGo(cfg, s, k), RaisesResume(cfg, s, k), s.mem.halted[k],
                     RaisesGo(cfg, s', k), RaisesResume(cfg, s', k), s'.mem.halted[k]);
    }
  }

  lemma NotMoved(cfg: Config, s: System, i: Input, k: nat)
    requires Sound(cfg, s, i) && k < cfg.harts && i.act != Exec(k) && i.act != Enter(k) && !(i.act.Run? && i.act.k == k)
    ensures var s' := Step(cfg, s, i);
      && |s'.harts| == cfg.harts && |s'.past.arch| == cfg.harts
      && s'.harts[k] == s.harts[k] && s'.past.arch[k] == s.past.arch[k]
      && (InProgram(cfg, s, k) ==> s'.past.promised == s.past.promised && s'.past.trapped == s.past.trapped && s'.past.budget == s.past.budget)
  {
    hide Stands, BusAccess, NextCsrs, NextMem, HartIndex, Selected, ControlOf, RequestOf, StepHart, ProgramAccess;
  }

  lemma ReportsNothing(cfg: Config, s: System, i: Input, k: nat)
    requires Sound(cfg, s, i) && k < cfg.harts && i.act != Exec(k)
    ensures var m := MemInput(cfg, s, i);
      && !Reports(m, RESUMING, k) && !Reports(m, HALTED, k)
      && (k == Selected(cfg, s) ==> !Writes(m, GOING) && !Writes(m, EXCEPTION) && !WritesData(m))
      && (Writes(m, GOING) ==> k != m.sel)
  {
    hide WellFormed, FsmOk, Legal, ValidMemIn, Stands, Reports, BusAccess, Selected;
  }

  lemma AllowedWeakens(l: Loc, s0: Word, go: bool, resume: bool, halted: bool, go': bool, resume': bool, halted': bool)
    requires Allowed(l, s0, go, resume, halted) && (go ==> go') && (resume ==> resume') && (halted' ==> halted)
    ensures Allowed(l, s0, go', resume', halted')
  {
  }

  /** What one own step does to a hart: its entry in the next state. */
  lemma MovedHart(cfg: Config, s: System, i: Input, k: nat)
    requires Sound(cfg, s, i) && i.act == Exec(k)
    ensures k < cfg.harts && s.harts[k].debug
    ensures Step(cfg, s, i).harts == s.harts[k := StepHart(cfg, SystemView(cfg, s, i.lines), s.harts[k])]
    ensures Step(cfg, s, i).past.entry == s.past.entry
    ensures !Goes(cfg, s, i) ==> Step(cfg, s, i).past.arch == s.past.arch
    ensures InProgram(cfg, s, k) ==>
      && Step(cfg, s, i).past.promised == s.past.promised
      && Step(cfg, s, i).past.trapped == (s.past.trapped || IsWriteTo(BusAccess(cfg, s, i), EXCEPTION))
      && Step(cfg, s, i).past.budget == if s.past.budget > 0 then s.past.budget - 1 else 0
  {
    hide Stands, BusAccess, NextCsrs, NextMem, HartIndex, Selected, ControlOf, RequestOf, StepHart, FsmOk, Reporting, SystemView, ProgramAccess;
  }

  /** A parked hart that goes on polling, or comes from entry, stays parked. */
  lemma PollingStep(cfg: Config, s: System, i: Input, k: nat, l: Loc)
    requires Sound(cfg, s, i) && i.act == Exec(k) && Stands(cfg, s, k, l) && !InProgram(cfg, s, k)
    requires Inner(Two(cfg), l) && !l.StoreGoing? && !l.StoreResuming?
    requires WellFormed(cfg, Step(cfg, s, i))
    ensures HartOk(cfg, Step(cfg, s, i), k)
  {
    hide *;
    SoundParts(cfg, s, i);
    ReportsNothingElse(cfg, s, i, k, l);
    MovedHart(cfg, s, i, k);
    Shapes(cfg, s, k);
    Shapes(cfg, Step(cfg, s, i), k);
    ParkedMoves(cfg, s, i, k, l);
    StandsAllowed(cfg, s, k, l);
    FlagsKept(cfg, s, i, k);
    PollingAllowed(cfg, s, i, k, l, Step(cfg, s, i).harts[k].gpr[S0]);
    OnInLoop(cfg, s.harts[k], Step(cfg, s, i), k, NextLoc(Two(cfg), l, s.harts[k].gpr[S0]));
  }

  lemma StandsAllowed(cfg: Config, s: System, k: nat, l: Loc)
    requires WellFormed(cfg, s) && Stands(cfg, s, k, l)
    ensures k < cfg.harts && s.harts[k].debug && At(cfg, s.harts[k], l)
    ensures Allowed(l, s.harts[k].gpr[S0], RaisesGo(cfg, s, k), RaisesResume(cfg, s, k), s.mem.halted[k])
  {
    hide At, Coherent, Allowed;
  }

  /** At a point of the loop other than the two reports nothing but HALTED may be reported. */
  lemma ReportsNothingElse(cfg: Config, s: System, i: Input, k: nat, l: Loc)
    requires Sound(cfg, s, i) && i.act == Exec(k) && Stands(cfg, s, k, l) && !l.StoreGoing? && !l.StoreResuming?
    ensures var m := MemInput(cfg, s, i);
      !Writes(m, GOING) && !Reports(m, RESUMING, k) && (Reports(m, HALTED, k) ==> l.StoreHalted?) && !Goes(cfg, s, i)
  {
    hide Coherent, Allowed, At, BusAccess, ControlOf, HartIndex, Selected, FsmOk, Legal;
    AtOnePointOnly(cfg, s.harts[k], l);
  }

  /** Where the next step of the loop stands is allowed by the flags after the clock edge. */
  lemma PollingAllowed(cfg: Config, s: System, i: Input, k: nat, l: Loc, s0': Word)
    requires Sound(cfg, s, i) && Stands(cfg, s, k, l) && !InProgram(cfg, s, k) && WellFormed(cfg, Step(cfg, s, i))
    requires Inner(Two(cfg), l) && !l.StoreGoing? && !l.StoreResuming?
    requires l.LoadGo? || l.LoadResume? ==> s0' == if k == Selected(cfg, s) then Flag(SystemView(cfg, s, i.lines)) else 0
    requires l.TestGo? ==> s0' == s.harts[k].gpr[S0] % 2
    requires l.TestResume? ==> s0' == if s.harts[k].gpr[S0] == 2 then 2 else 0
    requires var s' := Step(cfg, s, i);
      && (RaisesGo(cfg, s, k) ==> RaisesGo(cfg, s', k)) && (RaisesResume(cfg, s, k) ==> RaisesResume(cfg, s', k))
      && (s'.mem.halted[k] ==> s.mem.halted[k] || l.StoreHalted?)
    ensures var s' := Step(cfg, s, i);
      Allowed(NextLoc(Two(cfg), l, s.harts[k].gpr[S0]), s0', RaisesGo(cfg, s', k), RaisesResume(cfg, s', k), s'.mem.halted[k])
  {
    hide *;
    SoundParts(cfg, s, i);
    StandsAllowed(cfg, s, k, l);
    Shapes(cfg, s, k);
    Shapes(cfg, Step(cfg, s, i), k);
    PollingFlags(cfg, s, i, k, l, s0');
    var s', go, resume := Step(cfg, s, i), RaisesGo(cfg, s, k), RaisesResume(cfg, s, k);
    AllowedStep(Two(cfg), l, s.harts[k].gpr[S0], s0', go, resume, s.mem.halted[k]);
    AllowedWeakens(NextLoc(Two(cfg), l, s.harts[k].gpr[S0]), s0', go, resume, s.mem.halted[k] || l.StoreHalted?,
                   RaisesGo(cfg, s', k), RaisesResume(cfg, s', k), s'.mem.halted[k]);
  }

  lemma OnInLoop(cfg: Config, h: Hart, s: System, k: nat, l: Loc)
    requires WellFormed(cfg, s) && k < cfg.harts && !InProgram(cfg, s, k) && h.debug
    requires StepsTo(cfg, l, h, s.harts[k], s.past.arch[k])
    requires Allowed(l, s.harts[k].gpr[S0], RaisesGo(cfg, s, k), RaisesResume(cfg, s, k), s.mem.halted[k])
    ensures HartOk(cfg, s, k)
  {
    hide At, Coherent, HartOk, PointOf, Parked, Selected, Allowed, ValidHart, Plain;
    ParkedAt(cfg, s, k, l);
  }

  lemma AtOnePointOnly(cfg: Config, h: Hart, l: Loc)
    requires At(cfg, h, l)
    ensures At(cfg, h, StoreHalted) <==> l == StoreHalted
    ensures At(cfg, h, StoreGoing) <==> l == StoreGoing
    ensures At(cfg, h, StoreResuming) <==> l == StoreResuming
  {
    hide AddressOf;
    if l != StoreHalted { AtOnePoint(cfg, h, l, StoreHalted); }
    if l != StoreGoing { AtOnePoint(cfg, h, l, StoreGoing); }
    if l != StoreResuming { AtOnePoint(cfg, h, l, StoreResuming); }
  }

  /** What a poll of the own flag tells the hart. */
  lemma PollingFlags(cfg: Config, s: System, i: Input, k: nat, l: Loc, s0': Word)
    requires Sound(cfg, s, i) && Stands(cfg, s, k, l) && !InProgram(cfg, s, k)
    requires l.LoadGo? || l.LoadResume? ==> s0' == if k == Selected(cfg, s) then Flag(SystemView(cfg, s, i.lines)) else 0
    ensures l.LoadGo? ==> s0' == (if RaisesGo(cfg, s, k) then 1 else if s0' == 2 then 2 else 0)
    ensures l.LoadResume? ==> s0' == (if RaisesResume(cfg, s, k) then 2 else if s0' == 1 then 1 else 0)
  {
    hide At, Coherent, Selected, Legal, Reporting;
    PointAt(cfg, s.harts[k], l);
  }

  /** The points of the reports are inside the ROM and fall through. */
  lemma ReportPoints(two: bool, s0: Word)
    ensures Inner(two, StoreGoing) && NextLoc(two, StoreGoing, s0) == Following(two, StoreGoing)
    ensures Inner(two, StoreResuming) && NextLoc(two, StoreResuming, s0) == Following(two, StoreResuming)
  {
  }

  /** The GOING report hands the hart over to the command: from here the promise holds. */
  lemma GoingStep(cfg: Config, s: System, i: Input, k: nat)
    requires Sound(cfg, s, i) && i.act == Exec(k) && Stands(cfg, s, k, StoreGoing)
    requires WellFormed(cfg, Step(cfg, s, i))
    ensures HartOk(cfg, Step(cfg, s, i), k)
    ensures Goes(cfg, s, i) && InProgram(cfg, Step(cfg, s, i), k)
  {
    hide *;
    SoundParts(cfg, s, i);
    StandsAllowed(cfg, s, k, StoreGoing);
    Shapes(cfg, s, k);
    Shapes(cfg, Step(cfg, s, i), k);
    GoingIsEnabled(cfg, s, i, k);
    GoingRecorded(cfg, s, i, k);
    MovedHart(cfg, s, i, k);
    ReportPoints(Two(cfg), s.harts[k].gpr[S0]);
    ParkedMoves(cfg, s, i, k, StoreGoing);
    CommandKept(cfg, s, i);
    SelectionKept(cfg, s, i);
    Launched(cfg, s.harts[k], Step(cfg, s, i), k, s.past.arch[k]);
  }

  /** A hart behind the GOING report, with the promise just recorded. */
  lemma Launched(cfg: Config, h: Hart, s: System, k: nat, a: Arch)
    requires WellFormed(cfg, s) && k < cfg.harts && s.mem.fsm.CmdExecuting? && k == Selected(cfg, s) && h.debug && ValidArch(a)
    requires StepsTo(cfg, Following(Two(cfg), StoreGoing), h, s.harts[k], a)
    requires s.past.promised == ProgramAccess(Two(cfg), s.csrs.command, a, s.csrs.data[0])
    requires !s.past.trapped && s.past.budget == 28 && s.past.arch[k] == s.past.promised.arch
    ensures HartOk(cfg, s, k) && InProgram(cfg, s, k)
  {
    hide Ends, At, Coherent, Selected, ValidHart, Plain, ProgramAccess, ValidMem;
    var v, d := FrozenView(cfg, s), s.csrs.data[0];
    FrozenIsCurrent(cfg, s, 0);
    CommandRefinesAccess(cfg, v, Following(Two(cfg), StoreGoing), Solo(s.harts[k], d, false), a, 28);
  }

  /** The start of a command is recorded with the outcome it promises. */
  lemma GoingRecorded(cfg: Config, s: System, i: Input, k: nat)
    requires Sound(cfg, s, i) && i.act == Exec(k) && Stands(cfg, s, k, StoreGoing)
    ensures var p, out := Step(cfg, s, i).past, ProgramAccess(Two(cfg), s.csrs.command, s.past.arch[k], s.csrs.data[0]);
      && p.promised == out && !p.trapped && p.budget == 28 && p.arch == s.past.arch[k := out.arch]
      && p.log == s.past.log[k := s.past.log[k] + [Job(s.csrs.command, s.csrs.data[0])]]
  {
    GoingIsEnabled(cfg, s, i, k);
    hide Stands, BusAccess, ControlOf, NextHarts, NextCsrs, NextMem, Plain, HartIndex, ProgramAccess, MemInput, Reporting, RequestOf;
  }

  lemma GoingIsEnabled(cfg: Config, s: System, i: Input, k: nat)
    requires Sound(cfg, s, i) && i.act == Exec(k) && Stands(cfg, s, k, StoreGoing)
    ensures Goes(cfg, s, i) && s.mem.fsm.Go? && k == Selected(cfg, s) && !WritesData(MemInput(cfg, s, i))
    ensures !s.mem.fsm.Idle? && Step(cfg, s, i).mem.fsm.CmdExecuting?
  {
    hide At, Coherent, HartIndex, Selected, ControlOf, RequestOf, StepHart, NextHarts, NextPast, Legal, ValidHart, NextCsrs, StepsTo;
    ParkedMoves(cfg, s, i, k, StoreGoing);
  }

  /** The RESUMING report: the controller no longer takes the hart for halted. */
  lemma ResumingStep(cfg: Config, s: System, i: Input, k: nat)
    requires Sound(cfg, s, i) && i.act == Exec(k) && Stands(cfg, s, k, StoreResuming)
    requires WellFormed(cfg, Step(cfg, s, i))
    ensures HartOk(cfg, Step(cfg, s, i), k)
    ensures Step(cfg, s, i).harts[k].debug && Leaving(PointOf(cfg, Step(cfg, s, i).harts[k]))
  {
    hide *;
    SoundParts(cfg, s, i);
    StandsAllowed(cfg, s, k, StoreResuming);
    Shapes(cfg, s, k);
    Shapes(cfg, Step(cfg, s, i), k);
    ResumingIsEnabled(cfg, s, i, k);
    MovedHart(cfg, s, i, k);
    ReportPoints(Two(cfg), s.harts[k].gpr[S0]);
    ParkedMoves(cfg, s, i, k, StoreResuming);
    OnTheWayOut(cfg, s.harts[k], Step(cfg, s, i), k);
  }

  lemma OnTheWayOut(cfg: Config, h: Hart, s: System, k: nat)
    requires WellFormed(cfg, s) && k < cfg.harts && s.mem.fsm.Resume? && h.debug && !s.mem.halted[k]
    requires StepsTo(cfg, Following(Two(cfg), StoreResuming), h, s.harts[k], s.past.arch[k])
    ensures HartOk(cfg, s, k) && s.harts[k].debug && Leaving(PointOf(cfg, s.harts[k]))
  {
    hide At, Coherent, HartOk, PointOf, Parked, Selected;
    ParkedAt(cfg, s, k, Following(Two(cfg), StoreResuming));
  }

  lemma ResumingIsEnabled(cfg: Config, s: System, i: Input, k: nat)
    requires Sound(cfg, s, i) && i.act == Exec(k) && Stands(cfg, s, k, StoreResuming)
    ensures s.mem.fsm.Resume? && k == Selected(cfg, s) && !Writes(MemInput(cfg, s, i), GOING)
    ensures Step(cfg, s, i).mem.fsm.Resume? && !Step(cfg, s, i).mem.halted[k] && !Goes(cfg, s, i)
  {
    hide At, Coherent, HartIndex, Selected, ControlOf, RequestOf, StepHart, NextHarts, NextPast, Legal, ValidHart, NextCsrs, StepsTo;
    IndexOfHart(cfg.harts, k);
    ParkedMoves(cfg, s, i, k, StoreResuming);
  }

  /** dret: the hart leaves debug mode with the registers the past promises. */
  lemma DretStep(cfg: Config, s: System, i: Input, k: nat)
    requires Sound(cfg, s, i) && i.act == Exec(k) && Stands(cfg, s, k, ExitDret) && !InProgram(cfg, s, k)
    requires WellFormed(cfg, Step(cfg, s, i))
    ensures HartOk(cfg, Step(cfg, s, i), k)
    ensures !Step(cfg, s, i).harts[k].debug && ArchOf(Step(cfg, s, i).harts[k]) == s.past.arch[k]
  {
    hide Ends, At, Coherent, BusAccess, NextCsrs, NextMem, HartIndex, Selected, ControlOf, RequestOf, StepHart, NextHarts, NextPast, Legal, ValidHart, FsmOk, MemInput;
    AtOnePointOnly(cfg, s.harts[k], ExitDret);
    FlagsKept(cfg, s, i, k);
    MovedHart(cfg, s, i, k);
    DretIsSilent(cfg, s, i, k);
  }

  lemma InProgramParts(cfg: Config, s: System, i: Input, k: nat)
    requires WellFormed(cfg, s) && InProgram(cfg, s, k)
    ensures !s.mem.fsm.Idle? && k == Selected(cfg, s) && !Goes(cfg, s, i)
  {
    hide WellFormed, MemInput, Selected;
  }

  /** A step inside the program keeps the promise. */
  lemma ProgramMoves(cfg: Config, s: System, i: Input, k: nat)
    requires Sound(cfg, s, i) && i.act == Exec(k) && InProgram(cfg, s, k) && Fulfilling(cfg, s, k)
    requires !At(cfg, s.harts[k], StoreHalted) && WellFormed(cfg, Step(cfg, s, i))
    ensures HartOk(cfg, Step(cfg, s, i), k) && InProgram(cfg, Step(cfg, s, i), k)
    ensures Step(cfg, s, i).past.budget == s.past.budget - 1
  {
    hide *;
    SoundParts(cfg, s, i);
    InProgramParts(cfg, s, i, k);
    MovedHart(cfg, s, i, k);
    Shapes(cfg, s, k);
    Shapes(cfg, Step(cfg, s, i), k);
    ProgramStep(cfg, s, i, k);
    ProgramAccessSeen(cfg, s, i, k);
    FlagsKept(cfg, s, i, k);
    CommandKept(cfg, s, i);
    SelectionKept(cfg, s, i);
    PromiseOf(cfg, s, k);
    StillFulfilling(cfg, s, Step(cfg, s, i), k);
  }

  lemma PromiseOf(cfg: Config, s: System, k: nat)
    requires WellFormed(cfg, s) && k < cfg.harts && Fulfilling(cfg, s, k)
    ensures s.past.promised.arch == s.past.arch[k]
  {
    hide WellFormed, Ends, FrozenView;
  }

  /** The promise of the view before, with the new data, is the promise of the view after. */
  lemma StillFulfilling(cfg: Config, s: System, s': System, k: nat)
    requires WellFormed(cfg, s) && WellFormed(cfg, s') && k < cfg.harts && InProgram(cfg, s', k)
    requires Selected(cfg, s') == Selected(cfg, s) && s'.csrs.command == s.csrs.command && s'.csrs.progbuf == s.csrs.progbuf
    requires s'.csrs.data == s.csrs.data[0 := s'.csrs.data[0]]
    requires Ends(cfg, FrozenView(cfg, s), Solo(s'.harts[k], s'.csrs.data[0], s'.past.trapped), s'.past.budget, s'.past.promised)
    requires s'.past.promised.arch == s'.past.arch[k]
    ensures HartOk(cfg, s', k)
  {
    hide Ends, Selected, ValidHart, Plain, ValidMem, Parked;
    ViewsValid(cfg, s, 0);
    var v, solo := FrozenView(cfg, s), Solo(s'.harts[k], s'.csrs.data[0], s'.past.trapped);
    EndsOnData(cfg, v, s'.csrs.data[0], solo, s'.past.budget, s'.past.promised);
    EndsUnfold(cfg, v, solo, s'.past.budget, s'.past.promised);
  }

  /** The data register is part of the solo state, not of the view. */
  lemma {:induction false} EndsOnData(cfg: Config, v: View, d: Word, s: Solo, n: nat, out: Outcome)
    requires ValidView(v) && Ends(cfg, v, s, n, out)
    ensures Ends(cfg, SoloView(v, d), s, n, out)
    decreases n
  {
    hide At, Coherent, RequestOf, StepHart, Quiet, DataAfter;
    assert SoloView(SoloView(v, d), s.data) == SoloView(v, s.data) by {
      assert v.data[0 := d][0 := s.data] == v.data[0 := s.data];
    }
    if !At(cfg, s.hart, StoreHalted) {
      EndsOnData(cfg, v, d, SoloStep(cfg, v, s), n - 1, out);
    }
  }

  lemma ProgramAccessSeen(cfg: Config, s: System, i: Input, k: nat)
    requires Sound(cfg, s, i) && i.act == Exec(k) && InProgram(cfg, s, k)
    requires Quiet(cfg, s.harts[k], RequestOf(cfg, SystemView(cfg, s, i.lines), s.harts[k]))
    ensures var m, a := MemInput(cfg, s, i), RequestOf(cfg, SystemView(cfg, s, i.lines), s.harts[k]);
      && !Reports(m, HALTED, k)
      && IsWriteTo(BusAccess(cfg, s, i), EXCEPTION) == IsWriteTo(a, EXCEPTION)
      && (if WritesData(m) then DataAfter(s.csrs.data[0], m.access) else s.csrs.data[0]) == DataAfter(s.csrs.data[0], a)
  {
    hide RequestOf, SystemView, Stands, SteadyOffset, Merge, HartIndex, Selected, FsmOk, ValidHart, Plain;
  }

  lemma NoStepNoGoing(cfg: Config, s: System, i: Input)
    requires Sound(cfg, s, i) && !i.act.Exec?
    ensures !Writes(MemInput(cfg, s, i), GOING)
  {
    hide WellFormed, FsmOk, Legal, ValidMemIn, MemInput, Stands, Reports, Writes;
  }

  /** Debug entry: from here the recorded registers are those of the hart. */
  lemma EnterStep(cfg: Config, s: System, i: Input, k: nat)
    requires Sound(cfg, s, i) && i.act == Enter(k) && k < cfg.harts && HartOk(cfg, s, k)
    requires WellFormed(cfg, Step(cfg, s, i))
    ensures HartOk(cfg, Step(cfg, s, i), k)
  {
    hide *;
    SoundParts(cfg, s, i);
    EnteredState(cfg, s, i, k);
    Shapes(cfg, s, k);
    Shapes(cfg, Step(cfg, s, i), k);
    NoStepNoGoing(cfg, s, i);
    FlagsKept(cfg, s, i, k);
    ValidConfigOf(cfg, s);
    EntryCoherent(cfg, s.harts[k]);
    EnteredParked(cfg, Step(cfg, s, i), k);
  }

  lemma ValidConfigOf(cfg: Config, s: System)
    requires WellFormed(cfg, s)
    ensures ValidConfig(cfg)
  {
  }

  lemma EnteredState(cfg: Config, s: System, i: Input, k: nat)
    requires Sound(cfg, s, i) && i.act == Enter(k) && k < cfg.harts && HartOk(cfg, s, k)
    ensures var s' := Step(cfg, s, i);
      |s'.harts| == cfg.harts && s'.harts[k] == Entered(cfg, s.harts[k])
      && |s'.past.arch| == cfg.harts && s'.past.arch[k] == ArchOf(Entered(cfg, s.harts[k])) && !InProgram(cfg, s, k)
  {
    hide Ends, Fulfilling, Parked, BusAccess, NextCsrs, NextMem, HartIndex, Selected, ControlOf, FsmOk, MemInput, Plain, Stands, Entered, ArchOf, Goes;
  }

  lemma EntryCoherent(cfg: Config, h: Hart)
    requires ValidConfig(cfg) && ValidHart(h)
    ensures var e := Entered(cfg, h); e.debug && At(cfg, e, EntryVector) && Coherent(cfg, EntryVector, e, ArchOf(e))
  {
    hide AddressOf;
    EntryAddress(cfg);
  }

  lemma EnteredParked(cfg: Config, s: System, k: nat)
    requires WellFormed(cfg, s) && k < cfg.harts && !InProgram(cfg, s, k) && s.harts[k].debug
    requires At(cfg, s.harts[k], EntryVector) && Coherent(cfg, EntryVector, s.harts[k], s.past.arch[k])
    ensures HartOk(cfg, s, k)
  {
    hide Coherent, At;
    ParkedAt(cfg, s, k, EntryVector);
  }

  lemma RunStep(cfg: Config, s: System, i: Input, k: nat)
    requires Sound(cfg, s, i) && i.act.Run? && i.act.k == k && HartOk(cfg, s, k)
    requires WellFormed(cfg, Step(cfg, s, i))
    ensures HartOk(cfg, Step(cfg, s, i), k)
  {
    hide Ends, BusAccess, NextCsrs, NextMem, HartIndex, Selected, ControlOf, NextPast, FsmOk, MemInput, Plain, Stands, Coherent;
    FlagsKept(cfg, s, i, k);
  }

  /** The step of the hart that moves. */
  lemma MoverStep(cfg: Config, s: System, i: Input, k: nat)
    requires Sound(cfg, s, i) && i.act == Exec(k) && HartOk(cfg, s, k)
    requires WellFormed(cfg, Step(cfg, s, i))
    ensures HartOk(cfg, Step(cfg, s, i), k)
  {
    assert k < cfg.harts && s.harts[k].debug;
    if InProgram(cfg, s, k) {
      assert Fulfilling(cfg, s, k);
      hide *;
      if At(cfg, s.harts[k], StoreHalted) { ReturnStep(cfg, s, i, k); } else { ProgramMoves(cfg, s, i, k); }
    } else {
      ParkedStands(cfg, s, k);
      var l := PointOf(cfg, s.harts[k]);
      assert Inner(Two(cfg), l) || l.ExitDret? by { hide At, Coherent; }
      hide Sound, At, Coherent, Stands, HartOk, Step, WellFormed;
      if l.ExitDret? { DretStep(cfg, s, i, k); }
      else if l.StoreGoing? { GoingStep(cfg, s, i, k); }
      else if l.StoreResuming? { ResumingStep(cfg, s, i, k); }
      else { PollingStep(cfg, s, i, k, l); }
    }
  }

  /** The HALTED report of the executing hart: the controller goes idle, the hart is parked, and
      the command has been served. */
  lemma ReturnStep(cfg: Config, s: System, i: Input, k: nat)
    requires Sound(cfg, s, i) && i.act == Exec(k) && InProgram(cfg, s, k) && Fulfilling(cfg, s, k)
    requires At(cfg, s.harts[k], StoreHalted) && WellFormed(cfg, Step(cfg, s, i))
    ensures HartOk(cfg, Step(cfg, s, i), k)
  {
    ReturnsToIdle(cfg, s, i, k);
    MovedHart(cfg, s, i, k);
    ProgramReturns(cfg, s, i, k);
    hide *;
    BackInLoop(cfg, s.harts[k], Step(cfg, s, i), k);
  }

  lemma BackInLoop(cfg: Config, h: Hart, s: System, k: nat)
    requires WellFormed(cfg, s) && k < cfg.harts && s.mem.fsm.Idle? && h.debug
    requires StepsTo(cfg, Following(Two(cfg), StoreHalted), h, s.harts[k], s.past.arch[k])
    ensures HartOk(cfg, s, k)
  {
    hide At, Coherent, HartOk, PointOf, Parked, Selected;
    ParkedAt(cfg, s, k, Following(Two(cfg), StoreHalted));
  }

  lemma ReturnsToIdle(cfg: Config, s: System, i: Input, k: nat)
    requires Sound(cfg, s, i) && i.act == Exec(k) && InProgram(cfg, s, k) && Fulfilling(cfg, s, k)
    requires At(cfg, s.harts[k], StoreHalted)
    ensures Step(cfg, s, i).mem.fsm.Idle? && !Goes(cfg, s, i)
  {
    hide At, Ends, HartIndex, Selected, RequestOf, StepHart, NextHarts, NextPast, Legal, ValidHart, NextCsrs, StepsTo, BusAccess;
    IndexOfHart(cfg.harts, k);
    ProgramReturns(cfg, s, i, k);
  }

  /** The selected hart of an active controller exists. */
  lemma FsmSelects(cfg: Config, s: System, i: Input)
    requires Sound(cfg, s, i)
    ensures !Step(cfg, s, i).mem.fsm.Idle? ==> Selected(cfg, Step(cfg, s, i)) == Selected(cfg, s) < cfg.harts
  {
    hide Stands, BusAccess, NextPast, NextHarts, NextCsrs, HartIndex, Selected, ControlOf, Reporting, ValidMemIn, Plain;
    assert ValidMemIn(MemInput(cfg, s, i)) by { ReportingValid(cfg, s, i); }
    if !Step(cfg, s, i).mem.fsm.Idle? { SelectionKept(cfg, s, i); }
  }

  lemma ReportingValid(cfg: Config, s: System, i: Input)
    requires WellFormed(cfg, s) && Reporting(cfg, s, i)
    ensures ValidMemIn(MemInput(cfg, s, i))
  {
  }

  /** A recorded exception of a running command shows in cmderr. */
  lemma FsmRecordsException(cfg: Config, s: System, i: Input)
    requires Sound(cfg, s, i) && Step(cfg, s, i).mem.fsm.CmdExecuting?
    ensures var s' := Step(cfg, s, i); !s'.csrs.cmdValid && (s'.past.trapped ==> s'.csrs.cmderr == Code(ErrException))
  {
    hide Stands, NextHarts, NextCsrs, HartIndex, Selected, ControlOf, ValidMemIn, Plain, ProgramAccess, RequestOf, SystemView, ArchOf;
    assert ValidMemIn(MemInput(cfg, s, i)) by { ReportingValid(cfg, s, i); }
    CommandKept(cfg, s, i);
  }

  /** A raised flag belongs to a halted hart. */
  lemma FsmRaisesForHalted(cfg: Config, s: System, i: Input)
    requires Sound(cfg, s, i)
    ensures var s', sel := Step(cfg, s, i), Selected(cfg, Step(cfg, s, i));
      |s'.mem.halted| == cfg.harts
      && (s'.mem.fsm.Go? || RaisesResume(cfg, s', sel) ==> sel < cfg.harts && s'.mem.halted[sel])
  {
    hide Stands, NextHarts, NextCsrs, NextPast, HartIndex, Selected, ControlOf, Plain, BusAccess, NextHalted;
    var s', sel := Step(cfg, s, i), Selected(cfg, s);
    NextVectorLengths(s.mem, MemInput(cfg, s, i));
    FsmSelects(cfg, s, i);
    if s'.mem.fsm.Go? || RaisesResume(cfg, s', Selected(cfg, s')) {
      FlagsKept(cfg, s, i, sel);
      if Reports(MemInput(cfg, s, i), RESUMING, sel) { ResumingSeen(cfg, s, i, sel); }
    }
  }

  lemma ResumingSeen(cfg: Config, s: System, i: Input, k: nat)
    requires Sound(cfg, s, i) && k < cfg.harts && Reports(MemInput(cfg, s, i), RESUMING, k)
    ensures i.act == Exec(k) && RaisesResume(cfg, s, k) && Step(cfg, s, i).mem.resuming[k]
    ensures Stands(cfg, s, k, StoreResuming)
  {
    hide At, Coherent, NextHarts, NextCsrs, NextPast, HartIndex, Selected, ControlOf, Plain, BusAccess;
  }

  /** An answered resume request leaves the hart on its way out. */
  lemma FsmResumed(cfg: Config, s: System, i: Input)
    requires Sound(cfg, s, i) && WellFormed(cfg, Step(cfg, s, i))
    ensures var s', sel := Step(cfg, s, i), Selected(cfg, Step(cfg, s, i));
      s'.mem.fsm.Resume? && sel < cfg.harts && s'.mem.resuming[sel] ==> s'.harts[sel].debug && Leaving(PointOf(cfg, s'.harts[sel]))
  {
    hide *;
    SoundParts(cfg, s, i);
    FsmSelects(cfg, s, i);
    var s', sel := Step(cfg, s, i), Selected(cfg, Step(cfg, s, i));
    if s'.mem.fsm.Resume? && sel < cfg.harts {
      Shapes(cfg, s, sel);
      Shapes(cfg, s', sel);
      if s'.mem.resuming[sel] {
        AnswerMeansReport(cfg, s, i);
        ResumingSeen(cfg, s, i, sel);
        ResumingStep(cfg, s, i, sel);
      }
    }
  }

  lemma AnswerMeansReport(cfg: Config, s: System, i: Input)
    requires Sound(cfg, s, i) && WellFormed(cfg, Step(cfg, s, i))
    ensures var s', sel := Step(cfg, s, i), Selected(cfg, Step(cfg, s, i));
      s'.mem.fsm.Resume? && sel < cfg.harts && s'.mem.resuming[sel]
      ==> Reports(MemInput(cfg, s, i), RESUMING, sel)
  {
    hide Stands, NextHarts, NextCsrs, NextPast, HartIndex, Selected, ControlOf, Plain, BusAccess, NextHalted;
    if Step(cfg, s, i).mem.fsm.Resume? { SelectionKept(cfg, s, i); }
  }

  lemma FsmStaysOk(cfg: Config, s: System, i: Input)
    requires Sound(cfg, s, i) && WellFormed(cfg, Step(cfg, s, i))
    ensures FsmOk(cfg, Step(cfg, s, i))
  {
    var s' := Step(cfg, s, i);
    assert |s'.mem.halted| == cfg.harts && |s'.mem.resuming| == cfg.harts && |s'.harts| == cfg.harts;
    hide Sound, Step, Selected, WellFormed, PointOf, Leaving;
    FsmSelects(cfg, s, i);
    if s'.mem.fsm.CmdExecuting? { FsmRecordsException(cfg, s, i); }
    FsmRaisesForHalted(cfg, s, i);
    FsmResumed(cfg, s, i);
  }

  lemma HartsStayValid(cfg: Config, s: System, i: Input, k: nat)
    requires WellFormed(cfg, s) && Legal(cfg, s, i) && k < cfg.harts
    ensures |NextHarts(cfg, s, i)| == cfg.harts
    ensures ValidHart(NextHarts(cfg, s, i)[k]) && NextHarts(cfg, s, i)[k].id == k
  {
    hide Execute, Instruction, AccessOf, LoadData, SystemView, HartIndex, MemInput;
    if i.act == Exec(k) {
      var v := SystemView(cfg, s, i.lines);
      ViewsValid(cfg, s, i.lines);
      var instr := Instruction(cfg, v, s.harts[k]);
      ExecuteKeepsValid(cfg, s.harts[k], instr, LoadData(cfg, v, AccessOf(cfg, s.harts[k], instr)));
    }
  }

  lemma ProgramAccessValid(two: bool, c: Word, a: Arch, d: Word)
    requires ValidArch(a)
    ensures ValidArch(ProgramAccess(two, c, a, d).arch)
  {
    hide Unsupported, Transfer, Aarsize, SignExtend, Overlay;
  }

  lemma PastStaysValid(cfg: Config, s: System, i: Input, k: nat)
    requires WellFormed(cfg, s) && k < cfg.harts
    ensures var p := NextPast(cfg, s, i);
      && |p.entry| == cfg.harts && |p.log| == cfg.harts && |p.arch| == cfg.harts
      && ValidArch(p.entry[k]) && ValidArch(p.arch[k])
  {
    hide HartIndex, Selected, MemInput, ProgramAccess, SystemView, RequestOf, BusAccess;
    if Goes(cfg, s, i) {
      ProgramAccessValid(Two(cfg), s.csrs.command, s.past.arch[Selected(cfg, s)], s.csrs.data[0]);
    }
  }

  lemma StaysWellFormed(cfg: Config, s: System, i: Input)
    requires Sound(cfg, s, i)
    ensures WellFormed(cfg, Step(cfg, s, i))
  {
    hide NextCsrs, NextMem, NextHarts, NextPast, MemInput, CsrInput, Selected, Plain, ValidHart, ValidArch, Sound, FsmOk, Legal,
      Reporting, ValidMemIn, ValidMem, ValidCsrs;
    SoundParts(cfg, s, i);
    StepShapes(cfg, s, i);
    HartsStayValid(cfg, s, i, 0);
    forall k: nat | k < cfg.harts
      ensures ValidHart(NextHarts(cfg, s, i)[k]) && NextHarts(cfg, s, i)[k].id == k
    {
      HartsStayValid(cfg, s, i, k);
    }
    PastStaysValid(cfg, s, i, 0);
    forall k: nat | k < cfg.harts
      ensures ValidArch(NextPast(cfg, s, i).entry[k]) && ValidArch(NextPast(cfg, s, i).arch[k])
    {
      PastStaysValid(cfg, s, i, k);
    }
  }

  /** The invariant survives every legal clock edge. */
  lemma StepKeepsInvariant(cfg: Config, s: System, i: Input)
    requires Invariant(cfg, s) && Legal(cfg, s, i)
    ensures Reporting(cfg, s, i) && Invariant(cfg, Step(cfg, s, i))
  {
    ReportsAreGenuine(cfg, s, i);
    assert Sound(cfg, s, i);
    StaysWellFormed(cfg, s, i);
    hide Step, WellFormed, FsmOk, HartOk, Legal, Reporting, Sound;
    FsmStaysOk(cfg, s, i);
    forall k: nat | k < cfg.harts ensures HartOk(cfg, Step(cfg, s, i), k) {
      if i.act == Exec(k) { MoverStep(cfg, s, i, k); }
      else if i.act == Enter(k) { EnterStep(cfg, s, i, k); }
      else if i.act.Run? && i.act.k == k { RunStep(cfg, s, i, k); }
      else { HartStays(cfg, s, i, k); }
    }
  }
}
