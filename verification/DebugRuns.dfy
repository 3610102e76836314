/** Properties of whole runs of the debug module and its harts. */
module DebugRuns {
  import opened Words
  import opened Riscv
  import opened DebugRom
  import opened Harts
  import opened AbstractCommands
  import opened DebugMemory
  import opened ParkLoop
  import opened CommandRuns
  import opened CommandRefinement
  import opened ControlRegs
  import opened DebugSystem

  // ---- Runs ------------------------------------------------------------------------------------

  /** After reset and activation, with every hart running its program. */
  predicate Initial(cfg: Config, s: System) {
    WellFormed(cfg, s) && s.mem == ResetMem(cfg) && s.csrs == RESET_CSRS.(control := RESET_CSRS.control.(dmactive := true))
    && (forall k: nat :: k < cfg.harts ==> !s.harts[k].debug && s.past.log[k] == [] && s.past.arch[k] == s.past.entry[k])
  }

  /** The inputs are legal one after the other. */
  predicate LegalRun(cfg: Config, s: System, ins: seq<Input>)
    decreases |ins|
  {
    WellFormed(cfg, s)
    && (|ins| > 0 ==>
          Legal(cfg, s, ins[0]) && ValidMemIn(MemInput(cfg, s, ins[0])) && LegalRun(cfg, Step(cfg, s, ins[0]), ins[1..]))
  }

  function RunOf(cfg: Config, s: System, ins: seq<Input>): System
    requires LegalRun(cfg, s, ins)
    decreases |ins|
  {
    if |ins| == 0 then s else RunOf(cfg, Step(cfg, s, ins[0]), ins[1..])
  }

  lemma InitialInvariant(cfg: Config, s: System)
    requires Initial(cfg, s)
    ensures Invariant(cfg, s)
  {
    hide Ends, Parked;
  }

  // ---- The registers a hart should have ----------------------------------------------------------

  /** The served commands applied in order to the registers at debug entry. */
  function Replay(two: bool, entry: Arch, log: seq<Job>): (a: Arch)
    requires ValidArch(entry)
    ensures ValidArch(a)
    decreases |log|
  {
    if |log| == 0 then entry
    else
      var before := Replay(two, entry, log[..|log| - 1]);
      var job := log[|log| - 1];
      ProgramAccessValid(two, job.command, before, job.data);
      ProgramAccess(two, job.command, before, job.data).arch
  }

  /** The same through the plain register interface. */
  function PlainReplay(entry: Arch, log: seq<Job>): (a: Arch)
    requires ValidArch(entry)
    ensures ValidArch(a)
    decreases |log|
  {
    if |log| == 0 then entry
    else
      var before := PlainReplay(entry, log[..|log| - 1]);
      var job := log[|log| - 1];
      PlainAccessValid(job.command, before, job.data);
      PlainAccess(job.command, before, job.data).arch
  }

  lemma PlainAccessValid(c: Word, a: Arch, d: Word)
    requires ValidArch(a)
    ensures ValidArch(PlainAccess(c, a, d).arch)
  {
    hide Unsupported, Transfer, Aarsize, SignExtend, Overlay;
  }

  /** Unless a command aims at a scratch register in use, the two agree. */
  lemma {:induction false} ReplayIsPlain(two: bool, entry: Arch, log: seq<Job>)
    requires ValidArch(entry) && forall j :: 0 <= j < |log| ==> !HitsBorrowed(two, log[j].command)
    ensures Replay(two, entry, log) == PlainReplay(entry, log)
    decreases |log|
  {
    if |log| > 0 {
      var before, job := log[..|log| - 1], log[|log| - 1];
      ReplayIsPlain(two, entry, before);
      ProgramIsPlainAccess(two, job.command, Replay(two, entry, before), job.data);
    }
  }

  predicate ReplayedIn(cfg: Config, s: System, k: nat)
    requires WellFormed(cfg, s) && k < cfg.harts
  {
    s.past.arch[k] == Replay(Two(cfg), s.past.entry[k], s.past.log[k])
  }

  predicate Replayed(cfg: Config, s: System) {
    WellFormed(cfg, s) && forall k: nat :: k < cfg.harts ==> ReplayedIn(cfg, s, k)
  }

  lemma ReplayMore(two: bool, entry: Arch, log: seq<Job>, job: Job)
    requires ValidArch(entry)
    ensures Replay(two, entry, []) == entry
    ensures Replay(two, entry, log + [job]) == ProgramAccess(two, job.command, Replay(two, entry, log), job.data).arch
  {
    hide ProgramAccess;
    assert (log + [job])[..|log + [job]| - 1] == log;
  }

  lemma ReplayedHart(cfg: Config, s: System, i: Input, k: nat)
    requires WellFormed(cfg, s) && Legal(cfg, s, i) && ValidMemIn(MemInput(cfg, s, i)) && WellFormed(cfg, Step(cfg, s, i))
    requires k < cfg.harts && ReplayedIn(cfg, s, k)
    ensures ReplayedIn(cfg, Step(cfg, s, i), k)
  {
    hide MemInput, CsrInput, NextMem, NextCsrs, NextHarts, ProgramAccess, Selected, Legal, Replay, BusAccess, ArchOf, Entered, ValidMemIn;
    ReplayMore(Two(cfg), s.past.entry[k], s.past.log[k], Job(s.csrs.command, s.csrs.data[0]));
    if i.act == Enter(k) { ReplayMore(Two(cfg), Step(cfg, s, i).past.entry[k], [], Job(0, 0)); }
  }

  lemma ReplayedStep(cfg: Config, s: System, i: Input)
    requires Replayed(cfg, s) && Legal(cfg, s, i) && ValidMemIn(MemInput(cfg, s, i)) && WellFormed(cfg, Step(cfg, s, i))
    ensures Replayed(cfg, Step(cfg, s, i))
  {
    hide WellFormed, ValidMemIn, MemInput, Step, Legal, ReplayedIn;
    forall k: nat | k < cfg.harts ensures ReplayedIn(cfg, Step(cfg, s, i), k) { ReplayedHart(cfg, s, i, k); }
  }

  /** What holds of every reachable state. */
  predicate Reached(cfg: Config, s: System) {
    Invariant(cfg, s) && Replayed(cfg, s)
  }

  lemma ReachedStep(cfg: Config, s: System, i: Input)
    requires Reached(cfg, s) && Legal(cfg, s, i)
    ensures ValidMemIn(MemInput(cfg, s, i)) && Reached(cfg, Step(cfg, s, i))
  {
    hide Invariant, Replayed, Reporting, WellFormed;
    assert Invariant(cfg, s) && Replayed(cfg, s) && WellFormed(cfg, s) by { ReachedParts(cfg, s); }
    StepKeepsInvariant(cfg, s, i);
    ReportingValid(cfg, s, i);
    ReachedWellFormed(cfg, Step(cfg, s, i));
    ReplayedStep(cfg, s, i);
  }

  lemma ReachedParts(cfg: Config, s: System)
    requires Reached(cfg, s)
    ensures Invariant(cfg, s) && Replayed(cfg, s) && WellFormed(cfg, s)
  {
  }

  lemma ReachedWellFormed(cfg: Config, s: System)
    requires Invariant(cfg, s)
    ensures WellFormed(cfg, s)
  {
  }

  /** Any number of cycles, any interleaving of the harts, any legal debugger. */
  lemma {:induction false} RunsReach(cfg: Config, s: System, ins: seq<Input>)
    requires Reached(cfg, s) && LegalRun(cfg, s, ins)
    ensures Reached(cfg, RunOf(cfg, s, ins))
    decreases |ins|
  {
    if |ins| > 0 {
      hide Reached, Step, Legal, ValidMemIn;
      ReachedStep(cfg, s, ins[0]);
      RunsReach(cfg, Step(cfg, s, ins[0]), ins[1..]);
    }
  }

  /** Whole-run refinement: whenever a hart executes dret, its registers are those at debug entry
      with the served commands applied in order, s0 and a0 included. */
  lemma DretRestores(cfg: Config, s0: System, ins: seq<Input>, i: Input, k: nat)
    requires Initial(cfg, s0) && LegalRun(cfg, s0, ins)
    requires var s := RunOf(cfg, s0, ins); WellFormed(cfg, s) && Legal(cfg, s, i) && i.act == Exec(k)
    requires var s := RunOf(cfg, s0, ins); !StepHart(cfg, SystemView(cfg, s, i.lines), s.harts[k]).debug
    ensures var s := RunOf(cfg, s0, ins);
      ArchOf(StepHart(cfg, SystemView(cfg, s, i.lines), s.harts[k])) == Replay(Two(cfg), s.past.entry[k], s.past.log[k])
  {
    var s := RunOf(cfg, s0, ins);
    assert Reached(cfg, s0) by { InitialReached(cfg, s0); }
    hide Reached, Initial, LegalRun, RunOf, Invariant, Replayed, ArchOf, StepHart, HartOk, Stands;
    RunsReach(cfg, s0, ins);
    ReachedParts(cfg, s);
    LeavesByDret(cfg, s, i, k);
    assert s.past.arch[k] == Replay(Two(cfg), s.past.entry[k], s.past.log[k]) by { ReplayedAt(cfg, s, k); }
  }

  lemma ReplayedAt(cfg: Config, s: System, k: nat)
    requires Replayed(cfg, s) && k < cfg.harts
    ensures s.past.arch[k] == Replay(Two(cfg), s.past.entry[k], s.past.log[k])
  {
    assert ReplayedIn(cfg, s, k);
  }

  lemma InitialReached(cfg: Config, s: System)
    requires Initial(cfg, s)
    ensures Reached(cfg, s)
  {
    InitialInvariant(cfg, s);
  }

  /** A hart leaves debug mode only at the dret of the ROM. */
  lemma LeavesByDret(cfg: Config, s: System, i: Input, k: nat)
    requires Invariant(cfg, s) && Legal(cfg, s, i) && i.act == Exec(k)
    requires !StepHart(cfg, SystemView(cfg, s, i.lines), s.harts[k]).debug
    ensures var h' := StepHart(cfg, SystemView(cfg, s, i.lines), s.harts[k]);
      ArchOf(h') == s.past.arch[k] && CSR_DPC in h'.csr && h'.pc == h'.csr[CSR_DPC]
  {
    var l, h' := PointOf(cfg, s.harts[k]), StepHart(cfg, SystemView(cfg, s, i.lines), s.harts[k]);
    assert HartOk(cfg, s, k);
    if InProgram(cfg, s, k) {
      assert Fulfilling(cfg, s, k);
      hide *;
      ProgramStaysInDebug(cfg, s, i, k);
      assert false;
    } else {
      ParkedStands(cfg, s, k);
      if !l.ExitDret? {
        assert Inner(Two(cfg), l) by { hide Coherent; }
        hide Stands, StepHart, At, Coherent, AccessAt, SystemView;
        ParkedMoves(cfg, s, i, k, l);
      } else {
        hide StepHart, Stands, SystemView;
        DretIsSilent(cfg, s, i, k);
      }
    }
  }

  lemma ProgramStaysInDebug(cfg: Config, s: System, i: Input, k: nat)
    requires WellFormed(cfg, s) && i.act == Exec(k) && k < cfg.harts && InProgram(cfg, s, k) && Fulfilling(cfg, s, k)
    ensures StepHart(cfg, SystemView(cfg, s, i.lines), s.harts[k]).debug
  {
    ViewsValid(cfg, s, i.lines);
    hide StepHart, Ends, At, SystemView, RequestOf, FrozenView, DataAfter, ValidHart, Quiet, AccessAt;
    var h' := StepHart(cfg, SystemView(cfg, s, i.lines), s.harts[k]);
    if At(cfg, s.harts[k], StoreHalted) {
      ProgramReturns(cfg, s, i, k);
    } else {
      ProgramStep(cfg, s, i, k);
      var a := RequestOf(cfg, SystemView(cfg, s, i.lines), s.harts[k]);
      EndsUnfold(cfg, FrozenView(cfg, s), Solo(h', DataAfter(s.csrs.data[0], a), s.past.trapped || IsWriteTo(a, EXCEPTION)),
                 s.past.budget - 1, s.past.promised);
    }
  }

  // ---- Safety of many harts ------------------------------------------------------------------------

  /** What the controller believes about the harts is true. */
  lemma HartsAreTracked(cfg: Config, s: System, k: nat)
    requires Invariant(cfg, s) && k < cfg.harts
    ensures s.mem.halted[k] ==> s.harts[k].debug && !Leaving(PointOf(cfg, s.harts[k]))
    ensures s.harts[k].debug && !InProgram(cfg, s, k) ==>
      At(cfg, s.harts[k], PointOf(cfg, s.harts[k])) && !InCommand(PointOf(cfg, s.harts[k]))
    ensures InProgram(cfg, s, k) ==> s.harts[k].debug
  {
    hide At, Coherent, Ends;
    assert HartOk(cfg, s, k);
    if InProgram(cfg, s, k) {
      assert Fulfilling(cfg, s, k) && s.harts[k].debug;
      if s.mem.halted[k] { hide *; ExecutingIsNotLeaving(cfg, s, k); }
    }
  }

  /** From every state of a running command the next report is HALTED, so the hart cannot be on
      its way out. */
  lemma ExecutingIsNotLeaving(cfg: Config, s: System, k: nat)
    requires WellFormed(cfg, s) && k < cfg.harts && InProgram(cfg, s, k) && Fulfilling(cfg, s, k)
    ensures !Leaving(PointOf(cfg, s.harts[k]))
  {
    if Leaving(PointOf(cfg, s.harts[k])) {
      PointIsAt(cfg, s.harts[k]);
      hide Ends, At, PointOf, LocAt;
      EndsIsNotLeaving(cfg, FrozenView(cfg, s), Solo(s.harts[k], s.csrs.data[0], s.past.trapped), s.past.budget, s.past.promised,
                       PointOf(cfg, s.harts[k]));
    }
  }

  lemma SoloLeaves(cfg: Config, v: View, s: Solo, l: Loc)
    requires ValidConfig(cfg) && ValidView(v) && ValidHart(s.hart) && At(cfg, s.hart, l) && Leaving(l)
    ensures var t := SoloStep(cfg, v, s);
      if l.ExitDret? then !t.hart.debug else At(cfg, t.hart, Following(Two(cfg), l)) && Leaving(Following(Two(cfg), l))
  {
    hide At, Perform, Instruction, Listing, ValidHart, SoloRequest, ValidConfig, Following, Leaving, Exists;
    FetchRom(cfg, SoloView(v, s.data), s.hart, l);
    LeavingLine(cfg, SoloView(v, s.data), s.hart, l);
  }

  lemma {:induction false} EndsIsNotLeaving(cfg: Config, v: View, s: Solo, n: nat, out: Outcome, l: Loc)
    requires ValidConfig(cfg) && ValidView(v) && At(cfg, s.hart, l) && Leaving(l)
    ensures !Ends(cfg, v, s, n, out)
    decreases n
  {
    hide *;
    if Ends(cfg, v, s, n, out) {
      LeavingIsNotHalted(cfg, s.hart, l);
      EndsUnfold(cfg, v, s, n, out);
      SoloLeaves(cfg, v, s, l);
      var t := SoloStep(cfg, v, s);
      if l.ExitDret? {
        EndsUnfold(cfg, v, t, n - 1, out);
      } else {
        EndsIsNotLeaving(cfg, v, t, n - 1, out, Following(Two(cfg), l));
      }
    }
  }

  lemma LeavingIsNotHalted(cfg: Config, h: Hart, l: Loc)
    requires At(cfg, h, l) && Leaving(l)
    ensures !At(cfg, h, StoreHalted)
  {
    hide AddressOf;
    AtOnePoint(cfg, h, l, StoreHalted);
  }

  lemma RestoreListing(two: bool, l: Loc)
    requires Exists(two, l) && Leaving(l) && !l.ExitDret?
    ensures FallsThrough(two, l) && Leaving(Following(two, l))
    ensures Listing(two, l) == Csrr(A0, CSR_DSCRATCH1) || Listing(two, l) == Csrr(S0, CSR_DSCRATCH0)
  {
    hide AddressOf;
  }

  lemma LeavingLine(cfg: Config, v: View, h: Hart, l: Loc)
    requires ValidConfig(cfg) && ValidView(v) && ValidHart(h) && At(cfg, h, l) && Leaving(l)
    ensures Exists(Two(cfg), l)
    ensures var h' := Perform(cfg, v, h, Listing(Two(cfg), l));
      if l.ExitDret? then !h'.debug else At(cfg, h', Following(Two(cfg), l)) && Leaving(Following(Two(cfg), l))
  {
    hide AddressOf, At, ValidHart, Perform, Leaving, Following, Exists;
    HartFacts(cfg, h, l);
    if l.ExitDret? { DretLeaves(cfg, v, h); } else { RestoreRuns(cfg, v, h, l); }
  }

  /** Restoring a register on the way out. */
  lemma RestoreRuns(cfg: Config, v: View, h: Hart, l: Loc)
    requires ValidConfig(cfg) && ValidView(v) && ValidHart(h) && At(cfg, h, l) && Leaving(l) && !l.ExitDret?
    ensures Exists(Two(cfg), l)
    ensures At(cfg, Perform(cfg, v, h, Listing(Two(cfg), l)), Following(Two(cfg), l)) && Leaving(Following(Two(cfg), l))
  {
    hide AddressOf, Perform, ValidHart, Following, FallsThrough, Listing, Leaving, Exists, Wrap, ValidConfig, ValidView, CsrRead;
    HartFacts(cfg, h, l);
    RestoreListing(Two(cfg), l);
    NextPc(cfg, h, l);
    RunCsrr(cfg, v, h, A0, CSR_DSCRATCH1);
    RunCsrr(cfg, v, h, S0, CSR_DSCRATCH0);
  }

  lemma DretLeaves(cfg: Config, v: View, h: Hart)
    requires ValidView(v) && ValidHart(h)
    ensures !Perform(cfg, v, h, Dret).debug
  {
  }

  lemma PointIsAt(cfg: Config, h: Hart)
    requires PointOf(cfg, h) != Nowhere
    ensures At(cfg, h, PointOf(cfg, h))
  {
    hide LocAt, AddressOf;
    AddressOfLocAt(Two(cfg), h.pc - cfg.base);
  }

  /** Exactly one flag byte can be raised: the one of the selected hart. */
  lemma OneFlagRaised(cfg: Config, s: System, i: Input, k: nat)
    requires Invariant(cfg, s) && k < cfg.harts
    ensures Lane(ReadWord(cfg, SystemView(cfg, s, i.lines), FLAGS + k), (FLAGS + k) % 4)
      == if k == Selected(cfg, s) && s.mem.fsm.Go? then 1
         else if k == Selected(cfg, s) && s.mem.fsm.Resume? then 2 else 0
  {
    hide ReadWord, Lane;
    FlagByte(cfg, SystemView(cfg, s, i.lines), k);
  }

  // ---- A command from GOING to HALTED ------------------------------------------------------------

  /** Every state of the run but possibly the last has the controller executing. */
  predicate ExecutingThroughout(cfg: Config, s: System, ins: seq<Input>)
    requires LegalRun(cfg, s, ins)
    decreases |ins|
  {
    |ins| > 0 ==> s.mem.fsm.CmdExecuting? && ExecutingThroughout(cfg, Step(cfg, s, ins[0]), ins[1..])
  }

  predicate BusyThroughout(cfg: Config, s: System, ins: seq<Input>)
    requires LegalRun(cfg, s, ins)
    decreases |ins|
  {
    |ins| > 0 ==> !s.mem.fsm.Idle? && BusyThroughout(cfg, Step(cfg, s, ins[0]), ins[1..])
  }

  /** From the first cycle of the go flag to the end no request of the debugger changes the command
      or the program buffer, and the upper data register stays as well. */
  lemma {:induction false} BusyRunKeepsProgram(cfg: Config, s: System, ins: seq<Input>)
    requires Invariant(cfg, s) && LegalRun(cfg, s, ins) && BusyThroughout(cfg, s, ins)
    ensures var f := RunOf(cfg, s, ins);
      && f.csrs.command == s.csrs.command && f.csrs.progbuf == s.csrs.progbuf
      && |f.csrs.data| == |s.csrs.data| == 2 && f.csrs.data[1] == s.csrs.data[1]
    decreases |ins|
  {
    ReachedWellFormed(cfg, s);
    if |ins| > 0 {
      BusyStepSound(cfg, s, ins[0]);
      CommandKept(cfg, s, ins[0]);
      hide Invariant, Step, Legal, MemInput, WritesData, Sound;
      BusyRunKeepsProgram(cfg, Step(cfg, s, ins[0]), ins[1..]);
    }
  }

  lemma BusyStepSound(cfg: Config, s: System, i: Input)
    requires Invariant(cfg, s) && Legal(cfg, s, i)
    ensures Sound(cfg, s, i) && Invariant(cfg, Step(cfg, s, i))
  {
    StepKeepsInvariant(cfg, s, i);
  }

  /** The exceptions of a running command are its own. */
  lemma ExceptionsAreOwn(cfg: Config, s: System, i: Input)
    requires Sound(cfg, s, i) && s.mem.fsm.CmdExecuting?
    ensures var c, c', e := s.csrs, Step(cfg, s, i).csrs, Writes(MemInput(cfg, s, i), EXCEPTION);
      && c'.cmderr == (if e then Code(ErrException) else if c.cmderr == 0 && Guarded(i.op) then Code(ErrBusy) else c.cmderr)
      && Step(cfg, s, i).past.trapped == (s.past.trapped || e)
  {
    hide Stands, BusAccess, ControlOf, NextHarts, Plain, Unsupported, BitAt, HartIndex, Merge, ProgramAccess;
  }

  /** One clock of a running command: the promise stands. */
  lemma PromiseStands(cfg: Config, s: System, i: Input)
    requires Sound(cfg, s, i) && s.mem.fsm.CmdExecuting? && s.harts[Selected(cfg, s)].debug
    ensures var s', sel := Step(cfg, s, i), Selected(cfg, s);
      && |s'.past.arch| == cfg.harts && |s'.past.log| == cfg.harts
      && s'.past.promised == s.past.promised && s'.past.arch[sel] == s.past.arch[sel] && s'.past.log[sel] == s.past.log[sel]
  {
    hide Stands, BusAccess, ControlOf, NextHarts, NextCsrs, NextMem, Plain, HartIndex, ProgramAccess, MemInput, Reporting, RequestOf;
  }

  /** The clock in which the controller goes idle is the HALTED report of the executing hart; by
      then the promise has come true. */
  lemma ServiceReturns(cfg: Config, s: System, i: Input, k: nat)
    requires Sound(cfg, s, i) && InProgram(cfg, s, k) && k < cfg.harts && HartOk(cfg, s, k)
    requires !Step(cfg, s, i).mem.fsm.CmdExecuting?
    ensures Step(cfg, s, i).mem.fsm.Idle?
    ensures Step(cfg, s, i).csrs.data[0] == s.past.promised.data
    ensures Step(cfg, s, i).past.trapped == s.past.promised.trapped
    ensures Bit(Step(cfg, s, i).mem.halted, k)
  {
    hide *;
    SoundParts(cfg, s, i);
    InProgramParts(cfg, s, i, k);
    ExecutingParts(cfg, s, k);
    NotExecutingNow(cfg, Step(cfg, s, i), k);
    FlagsKept(cfg, s, i, k);
    HaltedSeen(cfg, s, i, k);
    Shapes(cfg, s, k);
    ReturnsToIdle(cfg, s, i, k);
    ProgramReturns(cfg, s, i, k);
    HaltedAlone(cfg, s, i, k);
    CommandKept(cfg, s, i);
    ExceptionsAreOwn(cfg, s, i);
  }

  lemma ExecutingParts(cfg: Config, s: System, k: nat)
    requires WellFormed(cfg, s) && k < cfg.harts && InProgram(cfg, s, k) && HartOk(cfg, s, k)
    ensures s.mem.fsm.CmdExecuting? && k == Selected(cfg, s) && s.harts[k].debug && Fulfilling(cfg, s, k)
  {
    hide Fulfilling, Parked, Selected, WellFormed;
  }

  lemma NotExecutingNow(cfg: Config, s: System, k: nat)
    ensures !s.mem.fsm.CmdExecuting? ==> !InProgram(cfg, s, k)
  {
  }

  lemma HaltedAlone(cfg: Config, s: System, i: Input, k: nat)
    requires WellFormed(cfg, s) && k < 0x1_0000_0000 && BusAccess(cfg, s, i) == AccessAt(StoreHalted, k)
    ensures !WritesData(MemInput(cfg, s, i)) && !Writes(MemInput(cfg, s, i), EXCEPTION)
  {
    hide BusAccess, HartIndex, Selected, WellFormed;
  }

  lemma HaltedSeen(cfg: Config, s: System, i: Input, k: nat)
    requires Sound(cfg, s, i) && k < cfg.harts && Reports(MemInput(cfg, s, i), HALTED, k)
    ensures Bit(Step(cfg, s, i).mem.halted, k) && i.act == Exec(k) && At(cfg, s.harts[k], StoreHalted) && k < 1024
  {
    hide Stands, BusAccess, NextHarts, NextCsrs, NextPast, HartIndex, Selected, Plain;
  }

  /** From one state of a running command to a later one: the promise and the program are the
      same, and cmderr shows an exception exactly if the command raised one. */
  predicate Carries(s: System, f: System, k: nat) {
    && k < |s.past.arch| && k < |f.past.arch| && k < |s.past.log| && k < |f.past.log|
    && f.past.promised == s.past.promised && f.past.arch[k] == s.past.arch[k] && f.past.log[k] == s.past.log[k]
    && f.csrs.command == s.csrs.command && f.csrs.progbuf == s.csrs.progbuf
    && (s.past.trapped ==> f.past.trapped)
    && (f.csrs.cmderr == Code(ErrException) <==>
          s.csrs.cmderr == Code(ErrException) || (f.past.trapped && !s.past.trapped))
  }

  /** The command of hart `k` has ended as promised, and the hart is taken for halted again. */
  predicate Returned(f: System, k: nat) {
    && f.mem.fsm.Idle? && Bit(f.mem.halted, k) && |f.csrs.data| == 2 && f.csrs.data[0] == f.past.promised.data
    && f.past.trapped == f.past.promised.trapped
  }

  lemma ServiceStep(cfg: Config, s: System, i: Input, k: nat)
    requires Invariant(cfg, s) && Legal(cfg, s, i) && InProgram(cfg, s, k) && k < cfg.harts
    ensures Sound(cfg, s, i) && Invariant(cfg, Step(cfg, s, i)) && Carries(s, Step(cfg, s, i), k)
    ensures InProgram(cfg, Step(cfg, s, i), k) || Returned(Step(cfg, s, i), k)
  {
    hide Invariant, Step, Selected, MemInput, FsmOk, WellFormed, HartOk, Legal, Reporting, Sound, Writes, WritesData, ValidMemIn;
    InvariantParts(cfg, s, i, k);
    SoundParts(cfg, s, i);
    StepKeepsInvariant(cfg, s, i);
    SelectionKept(cfg, s, i);
    LengthsOf(cfg, s, k);
    LengthsOf(cfg, Step(cfg, s, i), k);
    ExceptionsAreOwn(cfg, s, i);
    ExecutingParts(cfg, s, k);
    PromiseStands(cfg, s, i);
    CommandKept(cfg, s, i);
    ExceptionOnce(cfg, s, i);
    if !Step(cfg, s, i).mem.fsm.CmdExecuting? { ServiceReturns(cfg, s, i, k); }
  }

  lemma LengthsOf(cfg: Config, s: System, k: nat)
    requires Invariant(cfg, s) && k < cfg.harts
    ensures k < |s.past.arch| && k < |s.past.log| && |s.csrs.data| == 2
    ensures s.mem.fsm.CmdExecuting? && s.past.trapped ==> s.csrs.cmderr == Code(ErrException)
  {
  }

  lemma ExceptionOnce(cfg: Config, s: System, i: Input)
    requires Sound(cfg, s, i) && s.mem.fsm.CmdExecuting?
    ensures s.past.trapped ==> s.csrs.cmderr == Code(ErrException)
  {
  }

  /** A command runs undisturbed from its GOING report to the HALTED report that ends it, whatever
      the other harts and the debugger do meanwhile. */
  lemma {:induction false} ServiceRun(cfg: Config, s: System, ins: seq<Input>, k: nat)
    requires Invariant(cfg, s) && InProgram(cfg, s, k) && LegalRun(cfg, s, ins) && ExecutingThroughout(cfg, s, ins)
    requires !RunOf(cfg, s, ins).mem.fsm.CmdExecuting? && k < cfg.harts
    ensures Carries(s, RunOf(cfg, s, ins), k) && Returned(RunOf(cfg, s, ins), k) && Invariant(cfg, RunOf(cfg, s, ins))
    decreases |ins|
  {
    hide Invariant, Step, Selected, MemInput, WellFormed, Legal, Sound, Returned;
    var i, s' := ins[0], Step(cfg, s, ins[0]);
    ServiceStep(cfg, s, i, k);
    if InProgram(cfg, s', k) {
      ServiceRun(cfg, s', ins[1..], k);
    } else {
      ReturnedIsIdle(s', k);
      assert |ins| == 1;
      assert RunOf(cfg, s, ins) == s';
    }
  }

  lemma ReturnedIsIdle(f: System, k: nat)
    requires Returned(f, k)
    ensures !f.mem.fsm.CmdExecuting?
  {
  }

  /** Hart `k` is in debug mode, in the ROM outside any command, and its program's registers are `a`. */
  predicate HoldsRegisters(cfg: Config, f: System, k: nat, a: Arch) {
    && k < |f.harts| && ValidHart(f.harts[k]) && f.harts[k].debug
    && At(cfg, f.harts[k], PointOf(cfg, f.harts[k])) && !InCommand(PointOf(cfg, f.harts[k]))
    && ProgramRegisters(cfg, f.harts[k]) == a
  }

  /** A halted hart that runs no command holds the registers the record says it should. */
  lemma HaltedHolds(cfg: Config, f: System, k: nat)
    requires Invariant(cfg, f) && Bit(f.mem.halted, k) && !InProgram(cfg, f, k)
    ensures k < |f.past.arch| && HoldsRegisters(cfg, f, k, f.past.arch[k])
  {
    assert HartOk(cfg, f, k);
    hide Coherent, At, Ends, PointOf, ProgramRegisters;
    CoherentRegisters(cfg, PointOf(cfg, f.harts[k]), f.harts[k], f.past.arch[k]);
  }

  /** The same while the go or the resume flag is raised for it and not answered. */
  lemma PolledHolds(cfg: Config, s: System, k: nat, l: Loc)
    requires WellFormed(cfg, s) && Stands(cfg, s, k, l)
    ensures HoldsRegisters(cfg, s, k, s.past.arch[k])
  {
    hide Coherent, At, PointOf, ProgramRegisters;
    PointAt(cfg, s.harts[k], l);
    CoherentRegisters(cfg, l, s.harts[k], s.past.arch[k]);
  }

  /** The flagship: a command that a hart starts at a GOING report is the access of one register,
      performed on the registers of the debugged program, once the controller is idle again. Both
      are read off the hart itself, s0 and a0 included; cmderr then shows an exception exactly if
      the access fails. */
  lemma CommandServed(cfg: Config, s: System, i: Input, ins: seq<Input>, k: nat)
    requires Invariant(cfg, s) && Legal(cfg, s, i) && i.act == Exec(k) && Stands(cfg, s, k, StoreGoing)
    requires ValidMemIn(MemInput(cfg, s, i))
    requires var s1 := Step(cfg, s, i);
      LegalRun(cfg, s1, ins) && ExecutingThroughout(cfg, s1, ins) && !RunOf(cfg, s1, ins).mem.fsm.CmdExecuting?
    requires Step(cfg, s, i).csrs.cmderr != Code(ErrException)
    ensures ValidArch(ProgramRegisters(cfg, s.harts[k]))
    ensures var f := RunOf(cfg, Step(cfg, s, i), ins);
      var out := ProgramAccess(Two(cfg), s.csrs.command, ProgramRegisters(cfg, s.harts[k]), s.csrs.data[0]);
      && Invariant(cfg, f) && Returned(f, k) && f.csrs.data[0] == out.data && HoldsRegisters(cfg, f, k, out.arch)
      && (f.csrs.cmderr == Code(ErrException) <==> out.trapped)
  {
    var s1 := Step(cfg, s, i);
    PolledHolds(cfg, s, k, StoreGoing);
    LengthsOf(cfg, s, k);
    InvariantParts(cfg, s, i, k);
    StepKeepsInvariant(cfg, s, i);
    GoingStep(cfg, s, i, k);
    GoingRecorded(cfg, s, i, k);
    assert k < |Step(cfg, s, i).past.arch|;
    hide Invariant, Step, MemInput, FsmOk, WellFormed, HartOk, Legal, Reporting, Sound, Stands, LegalRun, RunOf, ExecutingThroughout,
      ProgramAccess, HoldsRegisters, Selected;
    ServiceRun(cfg, s1, ins, k);
    ReturnedIsIdle(RunOf(cfg, s1, ins), k);
    HaltedHolds(cfg, RunOf(cfg, s1, ins), k);
  }

  lemma InvariantParts(cfg: Config, s: System, i: Input, k: nat)
    requires Invariant(cfg, s) && Legal(cfg, s, i) && k < cfg.harts
    ensures HartOk(cfg, s, k) && Sound(cfg, s, i)
    ensures InProgram(cfg, s, k) ==> s.harts[k].debug
  {
    hide Ends, Parked;
    ReportsAreGenuine(cfg, s, i);
  }

  /** Failed commands are atomic: if the access traps, then once the controller is idle the hart is
      in the park loop with every register of its program, s0 and a0 included, as before the
      command; the data register is as before, and cmderr shows the exception. */
  lemma FailedCommandIsAtomic(cfg: Config, s: System, i: Input, ins: seq<Input>, k: nat)
    requires Invariant(cfg, s) && Legal(cfg, s, i) && i.act == Exec(k) && Stands(cfg, s, k, StoreGoing)
    requires ValidMemIn(MemInput(cfg, s, i))
    requires var s1 := Step(cfg, s, i);
      LegalRun(cfg, s1, ins) && ExecutingThroughout(cfg, s1, ins) && !RunOf(cfg, s1, ins).mem.fsm.CmdExecuting?
    requires Step(cfg, s, i).csrs.cmderr != Code(ErrException)
    requires ProgramAccess(Two(cfg), s.csrs.command, s.past.arch[k], s.csrs.data[0]).trapped
    ensures var f := RunOf(cfg, Step(cfg, s, i), ins);
      && f.mem.fsm.Idle? && f.csrs.cmderr == Code(ErrException) && |f.csrs.data| == 2
      && f.csrs.data[0] == s.csrs.data[0] && HoldsRegisters(cfg, f, k, ProgramRegisters(cfg, s.harts[k]))
  {
    PolledHolds(cfg, s, k, StoreGoing);
    assert ValidArch(s.past.arch[k]) && ProgramRegisters(cfg, s.harts[k]) == s.past.arch[k];
    FailedAccessIsAtomic(Two(cfg), s.csrs.command, s.past.arch[k], s.csrs.data[0]);
    hide Invariant, Step, MemInput, WellFormed, Legal, Stands, LegalRun, RunOf, ExecutingThroughout, ProgramAccess, ValidArch,
      HoldsRegisters, ProgramRegisters;
    CommandServed(cfg, s, i, ins, k);
  }
}
