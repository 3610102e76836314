/** The controller always gets back to idle, and its state is what the bus traffic says. */
module DebugProgress {
  import opened Words
  import opened DebugRom
  import opened Harts
  import opened DebugMemory
  import opened ParkLoop
  import opened CommandRuns
  import opened CommandRefinement
  import opened ControlRegs
  import opened DebugSystem
  import opened DebugRuns

  // ---- The controller state and the bus -----------------------------------------------------------

  datatype Server = NoHart | TheHart(k: nat)

  /** The hart that has reported GOING and not yet HALTED since, read off the bus alone. */
  function ServingAfter(cfg: Config, s: System, i: Input, who: Server): Server
    requires WellFormed(cfg, s)
  {
    var a := BusAccess(cfg, s, i);
    if !i.act.Exec? then who
    else if IsWriteTo(a, GOING) then TheHart(i.act.k)
    else if IsWriteTo(a, HALTED) && who == TheHart(i.act.k) then NoHart
    else who
  }

  function Serving(cfg: Config, s: System): Server {
    if s.mem.fsm.CmdExecuting? then TheHart(Selected(cfg, s)) else NoHart
  }

  /** The controller is executing exactly while some hart is between its GOING report and its next
      HALTED report, and then that hart is the selected one. */
  lemma ExecutingIsServing(cfg: Config, s: System, i: Input)
    requires Invariant(cfg, s) && Legal(cfg, s, i)
    ensures ValidMemIn(MemInput(cfg, s, i))
    ensures Serving(cfg, Step(cfg, s, i)) == ServingAfter(cfg, s, i, Serving(cfg, s))
  {
    hide Invariant, WellFormed, Sound, Stands, BusAccess, Selected, Legal, FsmOk, HartOk, Step, Reporting, MemInput, ValidMemIn, Writes,
      Reports, IsWriteTo, ServingAfter;
    ReachedWellFormed(cfg, s);
    BusyStepSound(cfg, s, i);
    SoundParts(cfg, s, i);
    if Writes(MemInput(cfg, s, i), GOING) {
      GoingSeen(cfg, s, i);
    } else if s.mem.fsm.CmdExecuting? {
      SelectedInDebug(cfg, s);
      InvariantParts(cfg, s, i, Selected(cfg, s));
      ReportSeen(cfg, s, i, Selected(cfg, s));
    } else {
      NotExecuting(cfg, s, i);
      NothingSeen(cfg, s, i);
    }
  }

  lemma GoingSeen(cfg: Config, s: System, i: Input)
    requires Sound(cfg, s, i) && Writes(MemInput(cfg, s, i), GOING)
    ensures Serving(cfg, Step(cfg, s, i)) == ServingAfter(cfg, s, i, Serving(cfg, s))
  {
    hide WellFormed, Sound, Stands, BusAccess, Selected, Legal, FsmOk, HartOk, Step, ValidMemIn;
    SoundParts(cfg, s, i);
    GoingIsEnabled(cfg, s, i, Selected(cfg, s));
    SelectionKept(cfg, s, i);
  }

  /** The executing hart, and nobody else, ends the command with a HALTED report. */
  lemma ReportSeen(cfg: Config, s: System, i: Input, k: nat)
    requires Sound(cfg, s, i) && !Writes(MemInput(cfg, s, i), GOING)
    requires s.mem.fsm.CmdExecuting? && k == Selected(cfg, s) < cfg.harts && HartOk(cfg, s, k)
    ensures Serving(cfg, Step(cfg, s, i)) == ServingAfter(cfg, s, i, Serving(cfg, s))
  {
    hide WellFormed, Sound, Stands, BusAccess, Selected, Legal, FsmOk, HartOk, Step, ValidMemIn, ValidMem;
    SoundParts(cfg, s, i);
    FlagsKept(cfg, s, i, k);
    SelectionKept(cfg, s, i);
    if i.act == Exec(k) {
      OwnHaltedReport(cfg, s, i, k);
      if Reports(MemInput(cfg, s, i), HALTED, k) { HaltedEnds(cfg, s, i, k); }
    }
  }

  lemma HaltedEnds(cfg: Config, s: System, i: Input, k: nat)
    requires Sound(cfg, s, i) && s.mem.fsm.CmdExecuting? && k == Selected(cfg, s) && Reports(MemInput(cfg, s, i), HALTED, k)
    ensures Step(cfg, s, i).mem.fsm.Idle?
  {
    hide Stands, BusAccess, NextHarts, NextCsrs, NextPast, HartIndex, Selected;
  }

  lemma NothingSeen(cfg: Config, s: System, i: Input)
    requires WellFormed(cfg, s) && !s.mem.fsm.CmdExecuting? && !Writes(MemInput(cfg, s, i), GOING)
    ensures ServingAfter(cfg, s, i, Serving(cfg, s)) == NoHart
  {
    hide WellFormed, BusAccess, Selected;
  }

  lemma NotExecuting(cfg: Config, s: System, i: Input)
    requires Sound(cfg, s, i) && !s.mem.fsm.CmdExecuting? && !Writes(MemInput(cfg, s, i), GOING)
    ensures !Step(cfg, s, i).mem.fsm.CmdExecuting?
  {
    hide Stands, BusAccess, NextHarts, NextCsrs, NextPast, HartIndex, Selected;
  }

  lemma OwnHaltedReport(cfg: Config, s: System, i: Input, k: nat)
    requires Sound(cfg, s, i) && i.act == Exec(k) && InProgram(cfg, s, k) && k < cfg.harts && HartOk(cfg, s, k)
    ensures IsWriteTo(BusAccess(cfg, s, i), HALTED) ==> Reports(MemInput(cfg, s, i), HALTED, k)
  {
    assert s.harts[k].debug && Fulfilling(cfg, s, k);
    hide Sound, Fulfilling, At, Ends, HartIndex, Selected, RequestOf, StepHart, StepsTo, HartOk, SystemView, FrozenView;
    IndexOfHart(cfg.harts, k);
    if At(cfg, s.harts[k], StoreHalted) {
      ProgramReturns(cfg, s, i, k);
    } else {
      ProgramStep(cfg, s, i, k);
    }
  }

  /** The bus observer over a run. */
  function ServingOver(cfg: Config, s: System, ins: seq<Input>, who: Server): Server
    requires LegalRun(cfg, s, ins)
    decreases |ins|
  {
    if |ins| == 0 then who else ServingOver(cfg, Step(cfg, s, ins[0]), ins[1..], ServingAfter(cfg, s, ins[0], who))
  }

  lemma {:induction false} ObserverAgrees(cfg: Config, s: System, ins: seq<Input>)
    requires Invariant(cfg, s) && LegalRun(cfg, s, ins)
    ensures Invariant(cfg, RunOf(cfg, s, ins)) && WellFormed(cfg, RunOf(cfg, s, ins))
    ensures ServingOver(cfg, s, ins, Serving(cfg, s)) == Serving(cfg, RunOf(cfg, s, ins))
    decreases |ins|
  {
    ReachedWellFormed(cfg, s);
    if |ins| > 0 {
      hide Invariant, Step, Legal, ServingAfter, Serving, WellFormed, MemInput;
      ExecutingIsServing(cfg, s, ins[0]);
      StepKeepsInvariant(cfg, s, ins[0]);
      ObserverAgrees(cfg, Step(cfg, s, ins[0]), ins[1..]);
    }
  }

  /** Safety of every run with any number of harts: a hart taken for halted is in debug mode and has
      not reported RESUMING; at most one hart is outside the park loop, and it is so exactly
      between its GOING report and its next HALTED report. */
  lemma RunsAreSafe(cfg: Config, s0: System, ins: seq<Input>, k: nat)
    requires Initial(cfg, s0) && LegalRun(cfg, s0, ins) && k < cfg.harts
    ensures var s := RunOf(cfg, s0, ins);
      && Invariant(cfg, s) && WellFormed(cfg, s)
      && (s.mem.halted[k] ==> s.harts[k].debug && !Leaving(PointOf(cfg, s.harts[k])))
      && (s.harts[k].debug && ServingOver(cfg, s0, ins, NoHart) != TheHart(k) ==>
            At(cfg, s.harts[k], PointOf(cfg, s.harts[k])) && !InCommand(PointOf(cfg, s.harts[k])))
      && (s.mem.fsm.CmdExecuting? <==> ServingOver(cfg, s0, ins, NoHart) != NoHart)
      && (s.mem.fsm.CmdExecuting? ==> ServingOver(cfg, s0, ins, NoHart) == TheHart(Selected(cfg, s)))
  {
    InitialInvariant(cfg, s0);
    assert Serving(cfg, s0) == NoHart;
    ObserverAgrees(cfg, s0, ins);
    hide Invariant, LegalRun, RunOf, At, PointOf, Leaving, InCommand, ServingOver, Initial;
    HartsAreTracked(cfg, RunOf(cfg, s0, ins), k);
  }

  // ---- A measure of what is left to do ----------------------------------------------------------------

  /** Steps of a polling hart up to and including its GOING report, with the go flag raised. */
  function GoDistance(l: Loc, s0: Word): nat {
    match l
    case StoreGoing => 1
    case BranchGo => if s0 != 0 then 2 else 14
    case TestGo => if s0 % 2 == 1 then 3 else 15
    case LoadGo => 4 case AddGo => 5 case StoreHalted => 6 case LoopHartId => 7
    case LoopBack => 8 case BranchResume => 9 case TestResume => 10 case LoadResume => 11
    case AddResume => 12 case ResumeHartId => 13
    case BaseSlli => 8 case BaseSrli => 9 case BaseAuipc => 10 case SaveA0 => 11
    case SaveS0 => 12 case EntryFence => 13 case EntryVector => 14
    case _ => 0
  }

  /** Steps up to and including its RESUMING report, with the resume flag raised. */
  function ResumeDistance(l: Loc, s0: Word): nat {
    match l
    case StoreResuming => 1 case ExitHartId => 2 case ResumeVector => 3
    case BranchResume => if s0 != 0 then 4 else 16
    case TestResume => if s0 == 2 then 5 else 17
    case LoadResume => 6 case AddResume => 7 case ResumeHartId => 8 case BranchGo => 9
    case TestGo => 10 case LoadGo => 11 case AddGo => 12 case StoreHalted => 13 case LoopHartId => 14
    case LoopBack => 15
    case BaseSlli => 15 case BaseSrli => 16 case BaseAuipc => 17 case SaveA0 => 18
    case SaveS0 => 19 case EntryFence => 20 case EntryVector => 21
    case _ => 0
  }

  /** Steps of the selected hart that are left at most, by phase of the controller. */
  function Remaining(cfg: Config, s: System): nat
    requires WellFormed(cfg, s)
  {
    var sel := Selected(cfg, s);
    if s.mem.fsm.Idle? || sel >= cfg.harts then 0
    else
      var h := s.harts[sel];
      if s.mem.fsm.Go? then GoDistance(PointOf(cfg, h), h.gpr[S0]) + 29
      else if s.mem.fsm.CmdExecuting? then s.past.budget + 1
      else if s.mem.resuming[sel] then 1
      else ResumeDistance(PointOf(cfg, h), h.gpr[S0]) + 1
  }

  lemma GoComesCloser(two: bool, l: Loc, s0: Word, s0': Word)
    requires Inner(two, l) && Allowed(l, s0, true, false, true) && !l.StoreGoing?
    requires (l.LoadGo? ==> s0' == 1) && (l.TestGo? ==> s0' == s0 % 2)
    ensures GoDistance(NextLoc(two, l, s0), s0') < GoDistance(l, s0)
  {
  }

  lemma ResumeComesCloser(two: bool, l: Loc, s0: Word, s0': Word)
    requires Inner(two, l) && Allowed(l, s0, false, true, true) && !l.StoreResuming?
    requires (l.LoadResume? ==> s0' == 2) && (l.TestResume? ==> s0' == if s0 == 2 then 2 else 0)
    ensures ResumeDistance(NextLoc(two, l, s0), s0') < ResumeDistance(l, s0)
  {
  }

  predicate Closer(cfg: Config, s: System, s': System, steps: nat) {
    WellFormed(cfg, s) && WellFormed(cfg, s')
    && (s'.mem.fsm.Idle? || (Selected(cfg, s') == Selected(cfg, s) && Remaining(cfg, s') + steps <= Remaining(cfg, s)))
  }

  /** A raised flag: where the hart stands. */
  lemma FlaggedStands(cfg: Config, s: System, k: nat)
    requires Invariant(cfg, s) && k < cfg.harts && (RaisesGo(cfg, s, k) || RaisesResume(cfg, s, k))
    ensures s.mem.halted[k] && s.harts[k].debug
    ensures Stands(cfg, s, k, PointOf(cfg, s.harts[k])) && Inner(Two(cfg), PointOf(cfg, s.harts[k]))
  {
    hide Coherent, At, Ends;
    assert HartOk(cfg, s, k);
    assert s.mem.halted[k];
    ParkedStands(cfg, s, k);
    assert At(cfg, s.harts[k], PointOf(cfg, s.harts[k]));
    AtExists(cfg, s.harts[k], PointOf(cfg, s.harts[k]));
  }

  lemma AtExists(cfg: Config, h: Hart, l: Loc)
    requires At(cfg, h, l)
    ensures Exists(Two(cfg), l)
  {
    hide AddressOf;
  }

  /** Steps of other harts, and clocks without a step, take nothing back. */
  lemma OthersDoNotDelay(cfg: Config, s: System, i: Input)
    requires Invariant(cfg, s) && Legal(cfg, s, i) && !s.mem.fsm.Idle? && i.act != Exec(Selected(cfg, s))
    ensures Sound(cfg, s, i) && Closer(cfg, s, Step(cfg, s, i), 0)
  {
    hide Invariant, Sound, At, Coherent, Stands, HartOk, Step, Legal, BusAccess, Selected, Ends, PointOf, GoDistance, ResumeDistance, Parked,
      WellFormed, FsmOk, Reporting, ValidMemIn, MemInput, ValidHart;
    SelectedInDebug(cfg, s);
    var sel := Selected(cfg, s);
    InvariantParts(cfg, s, i, sel);
    SoundParts(cfg, s, i);
    StaysWellFormed(cfg, s, i);
    Shapes(cfg, s, sel);
    Shapes(cfg, Step(cfg, s, i), sel);
    FlagsKept(cfg, s, i, sel);
    SelectionKept(cfg, s, i);
    ReportsNothing(cfg, s, i, sel);
    if s.mem.fsm.Resume? && s.mem.resuming[sel] { AnsweredGoesIdle(cfg, s, i); } else { SelectedStays(cfg, s, i); }
  }

  lemma AnsweredGoesIdle(cfg: Config, s: System, i: Input)
    requires Sound(cfg, s, i) && s.mem.fsm.Resume? && s.mem.resuming[Selected(cfg, s)]
    ensures Step(cfg, s, i).mem.fsm.Idle?
  {
    hide Stands, BusAccess, NextHarts, NextCsrs, NextPast, HartIndex, Selected;
  }

  lemma SelectedInDebug(cfg: Config, s: System)
    requires Invariant(cfg, s) && !s.mem.fsm.Idle?
    ensures WellFormed(cfg, s) && Selected(cfg, s) < cfg.harts && s.harts[Selected(cfg, s)].debug
  {
    hide Coherent, At, Ends;
    assert HartOk(cfg, s, Selected(cfg, s));
  }

  lemma SelectedStays(cfg: Config, s: System, i: Input)
    requires Sound(cfg, s, i) && !s.mem.fsm.Idle? && Selected(cfg, s) < cfg.harts
    requires s.harts[Selected(cfg, s)].debug && i.act != Exec(Selected(cfg, s))
    ensures Step(cfg, s, i).harts[Selected(cfg, s)] == s.harts[Selected(cfg, s)]
    ensures s.mem.fsm.CmdExecuting? ==> Step(cfg, s, i).past.budget == s.past.budget
    ensures s.mem.fsm == Step(cfg, s, i).mem.fsm || s.mem.fsm.Resume?
  {
    hide BusAccess, NextCsrs, HartIndex, Selected;
  }

  /** A polling step with the go flag up brings the hart closer to its GOING report. */
  lemma GoPolls(cfg: Config, s: System, i: Input, k: nat, l: Loc)
    requires Sound(cfg, s, i) && i.act == Exec(k) && Stands(cfg, s, k, l) && RaisesGo(cfg, s, k)
    requires Inner(Two(cfg), l) && !l.StoreGoing? && s.mem.halted[k]
    ensures k < |Step(cfg, s, i).harts| && ValidHart(Step(cfg, s, i).harts[k])
    ensures var h, h' := s.harts[k], Step(cfg, s, i).harts[k];
      GoDistance(PointOf(cfg, h'), h'.gpr[S0]) < GoDistance(l, h.gpr[S0])
  {
    hide At, Coherent, HartOk, Step, BusAccess, Selected, Legal, Reporting, FsmOk, StepHart, NextLoc, Inner, Allowed, GoDistance, Stands, PointOf,
      Sound, WellFormed, ValidMemIn, MemInput, ValidHart;
    SoundParts(cfg, s, i);
    StandsAllowed(cfg, s, k, l);
    NotResuming(cfg, s, k, l);
    StaysWellFormed(cfg, s, i);
    Shapes(cfg, s, k);
    Shapes(cfg, Step(cfg, s, i), k);
    ViewsValid(cfg, s, i.lines);
    var h, h' := s.harts[k], StepHart(cfg, SystemView(cfg, s, i.lines), s.harts[k]);
    ParkedMoves(cfg, s, i, k, l);
    MovedHart(cfg, s, i, k);
    PointAt(cfg, h', NextLoc(Two(cfg), l, h.gpr[S0]));
    PollingFlags(cfg, s, i, k, l, h'.gpr[S0]);
    GoComesCloser(Two(cfg), l, h.gpr[S0], h'.gpr[S0]);
  }

  lemma ResumePolls(cfg: Config, s: System, i: Input, k: nat, l: Loc)
    requires Sound(cfg, s, i) && i.act == Exec(k) && Stands(cfg, s, k, l) && RaisesResume(cfg, s, k) && k < cfg.harts
    requires Inner(Two(cfg), l) && !l.StoreResuming? && s.mem.halted[k]
    ensures k < |Step(cfg, s, i).harts| && ValidHart(Step(cfg, s, i).harts[k])
    ensures var h, h' := s.harts[k], Step(cfg, s, i).harts[k];
      ResumeDistance(PointOf(cfg, h'), h'.gpr[S0]) < ResumeDistance(l, h.gpr[S0])
  {
    hide At, Coherent, HartOk, Step, BusAccess, Selected, Legal, Reporting, FsmOk, StepHart, NextLoc, Inner, Allowed, ResumeDistance, Stands, PointOf,
      Sound, WellFormed, ValidMemIn, MemInput, ValidHart;
    SoundParts(cfg, s, i);
    StandsAllowed(cfg, s, k, l);
    StaysWellFormed(cfg, s, i);
    Shapes(cfg, s, k);
    Shapes(cfg, Step(cfg, s, i), k);
    ViewsValid(cfg, s, i.lines);
    var h, h' := s.harts[k], StepHart(cfg, SystemView(cfg, s, i.lines), s.harts[k]);
    ParkedMoves(cfg, s, i, k, l);
    MovedHart(cfg, s, i, k);
    PointAt(cfg, h', NextLoc(Two(cfg), l, h.gpr[S0]));
    PollingFlags(cfg, s, i, k, l, h'.gpr[S0]);
    ResumeComesCloser(Two(cfg), l, h.gpr[S0], h'.gpr[S0]);
  }

  lemma ExecExists(cfg: Config, s: System, i: Input, k: nat)
    requires WellFormed(cfg, s) && Legal(cfg, s, i) && i.act == Exec(k)
    ensures k < cfg.harts && s.harts[k].debug
  {
  }

  lemma GoStepAdvances(cfg: Config, s: System, i: Input, k: nat)
    requires Invariant(cfg, s) && Legal(cfg, s, i) && i.act == Exec(k) && RaisesGo(cfg, s, k)
    ensures Sound(cfg, s, i) && Closer(cfg, s, Step(cfg, s, i), 1)
  {
    hide Invariant, At, Coherent, HartOk, Stands, Step, BusAccess, Selected, Ends, PointOf, GoDistance, Legal, Reporting, FsmOk, Inner,
      ResumeDistance, Goes, ProgramAccess, Sound, WellFormed, ValidMemIn, MemInput, ValidHart;
    ReachedWellFormed(cfg, s);
    ExecExists(cfg, s, i, k);
    InvariantParts(cfg, s, i, k);
    SoundParts(cfg, s, i);
    StaysWellFormed(cfg, s, i);
    Shapes(cfg, s, k);
    Shapes(cfg, Step(cfg, s, i), k);
    FlaggedStands(cfg, s, k);
    SelectionKept(cfg, s, i);
    var l := PointOf(cfg, s.harts[k]);
    if l.StoreGoing? {
      GoingIsEnabled(cfg, s, i, k);
      GoingRecorded(cfg, s, i, k);
      assert GoDistance(l, s.harts[k].gpr[S0]) == 1 by { GoDistanceEnds(l, s.harts[k].gpr[S0]); }
    } else {
      assert !l.StoreResuming? by { NotResuming(cfg, s, k, l); }
      FlagsStayUp(cfg, s, i, k, l);
      GoPolls(cfg, s, i, k, l);
    }
  }

  lemma GoDistanceEnds(l: Loc, s0: Word)
    ensures l.StoreGoing? ==> GoDistance(l, s0) == 1
    ensures l.StoreResuming? ==> ResumeDistance(l, s0) == 1
  {
  }

  lemma NotResuming(cfg: Config, s: System, k: nat, l: Loc)
    requires WellFormed(cfg, s) && Stands(cfg, s, k, l) && RaisesGo(cfg, s, k)
    ensures !l.StoreResuming?
  {
    hide At, Coherent;
  }

  /** A poll of the flag leaves it up. */
  lemma FlagsStayUp(cfg: Config, s: System, i: Input, k: nat, l: Loc)
    requires Sound(cfg, s, i) && i.act == Exec(k) && Stands(cfg, s, k, l) && !l.StoreGoing? && !l.StoreResuming?
    ensures RaisesGo(cfg, s, k) ==> RaisesGo(cfg, Step(cfg, s, i), k) && !Goes(cfg, s, i)
    ensures RaisesResume(cfg, s, k) ==> RaisesResume(cfg, Step(cfg, s, i), k)
  {
    hide *;
    SoundParts(cfg, s, i);
    StandsAllowed(cfg, s, k, l);
    FlagsKept(cfg, s, i, k);
    ReportsNothingElse(cfg, s, i, k, l);
  }

  lemma ResumeStepAdvances(cfg: Config, s: System, i: Input, k: nat)
    requires Invariant(cfg, s) && Legal(cfg, s, i) && i.act == Exec(k) && RaisesResume(cfg, s, k) && k < cfg.harts
    ensures Sound(cfg, s, i) && Closer(cfg, s, Step(cfg, s, i), 1)
  {
    hide Invariant, At, Coherent, HartOk, Stands, Step, BusAccess, Selected, Ends, PointOf, GoDistance, Legal, Reporting, FsmOk, Inner,
      ResumeDistance, Goes, ProgramAccess, Sound, WellFormed, ValidMemIn, MemInput, ValidHart;
    ReachedWellFormed(cfg, s);
    InvariantParts(cfg, s, i, k);
    SoundParts(cfg, s, i);
    StaysWellFormed(cfg, s, i);
    Shapes(cfg, s, k);
    Shapes(cfg, Step(cfg, s, i), k);
    FlaggedStands(cfg, s, k);
    SelectionKept(cfg, s, i);
    var l := PointOf(cfg, s.harts[k]);
    if l.StoreResuming? {
      ResumingIsEnabled(cfg, s, i, k);
      ResumingShows(cfg, s, i, k);
      GoDistanceEnds(l, s.harts[k].gpr[S0]);
    } else {
      assert !l.StoreGoing? by { NotGoing(cfg, s, k, l); }
      FlagsStayUp(cfg, s, i, k, l);
      ResumePolls(cfg, s, i, k, l);
    }
  }

  lemma ResumingShows(cfg: Config, s: System, i: Input, k: nat)
    requires Sound(cfg, s, i) && i.act == Exec(k) && Stands(cfg, s, k, StoreResuming)
    ensures Bit(Step(cfg, s, i).mem.resuming, k)
  {
    hide At, Coherent, HartIndex, Selected, ControlOf, RequestOf, StepHart, NextHarts, NextPast, Legal, ValidHart, NextCsrs, StepsTo;
    IndexOfHart(cfg.harts, k);
    ParkedMoves(cfg, s, i, k, StoreResuming);
  }

  lemma NotGoing(cfg: Config, s: System, k: nat, l: Loc)
    requires WellFormed(cfg, s) && Stands(cfg, s, k, l) && RaisesResume(cfg, s, k)
    ensures !l.StoreGoing?
  {
    hide At, Coherent;
  }

  lemma ProgramStepAdvances(cfg: Config, s: System, i: Input, k: nat)
    requires Invariant(cfg, s) && Legal(cfg, s, i) && i.act == Exec(k) && InProgram(cfg, s, k)
    ensures Sound(cfg, s, i) && Closer(cfg, s, Step(cfg, s, i), 1)
  {
    hide Invariant, At, Coherent, HartOk, Stands, Step, BusAccess, Selected, Ends, PointOf, Legal, Reporting, FsmOk, StepHart, Fulfilling,
      Sound, WellFormed, ValidMemIn, MemInput, ValidHart;
    ReachedWellFormed(cfg, s);
    ExecExists(cfg, s, i, k);
    InvariantParts(cfg, s, i, k);
    SoundParts(cfg, s, i);
    StaysWellFormed(cfg, s, i);
    Shapes(cfg, s, k);
    Shapes(cfg, Step(cfg, s, i), k);
    ExecutingParts(cfg, s, k);
    SelectionKept(cfg, s, i);
    if At(cfg, s.harts[k], StoreHalted) {
      ReturnsToIdle(cfg, s, i, k);
    } else {
      ProgramMoves(cfg, s, i, k);
    }
  }

  /** Every own step of the selected hart brings the controller closer to idle. */
  lemma OwnStepAdvances(cfg: Config, s: System, i: Input)
    requires Invariant(cfg, s) && Legal(cfg, s, i) && !s.mem.fsm.Idle? && i.act == Exec(Selected(cfg, s))
    ensures Sound(cfg, s, i) && Closer(cfg, s, Step(cfg, s, i), 1)
  {
    var sel := Selected(cfg, s);
    assert sel < cfg.harts;
    if s.mem.fsm.Go? {
      GoStepAdvances(cfg, s, i, sel);
    } else if s.mem.fsm.CmdExecuting? {
      ProgramStepAdvances(cfg, s, i, sel);
    } else if s.mem.resuming[sel] {
      InvariantParts(cfg, s, i, sel);
      StaysWellFormed(cfg, s, i);
      AnsweredGoesIdle(cfg, s, i);
    } else {
      ResumeStepAdvances(cfg, s, i, sel);
    }
  }

  /** The measure is bounded by a constant where a command or a resume is taken up, and it is
      used up only when the controller is idle. */
  lemma RemainingBound(cfg: Config, s: System)
    requires WellFormed(cfg, s) && FsmOk(cfg, s)
    ensures s.mem.fsm.Go? ==> Remaining(cfg, s) <= 44
    ensures s.mem.fsm.Resume? ==> Remaining(cfg, s) <= 22
    ensures !s.mem.fsm.Idle? ==> Remaining(cfg, s) > 0
  {
    hide PointOf, Selected;
  }

  function OwnSteps(ins: seq<Input>, k: nat): nat {
    if |ins| == 0 then 0 else (if ins[0].act == Exec(k) then 1 else 0) + OwnSteps(ins[1..], k)
  }

  predicate VisitsIdle(cfg: Config, s: System, ins: seq<Input>)
    requires LegalRun(cfg, s, ins)
    decreases |ins|
  {
    s.mem.fsm.Idle? || (|ins| > 0 && VisitsIdle(cfg, Step(cfg, s, ins[0]), ins[1..]))
  }

  /** Progress: however the other harts and the debugger interleave, the controller is idle again
      by the time the selected hart has made a fixed number of steps: 44 from the go flag and 22
      from the resume flag. */
  lemma {:induction false} ReachesIdle(cfg: Config, s: System, ins: seq<Input>)
    requires Invariant(cfg, s) && LegalRun(cfg, s, ins) && OwnSteps(ins, Selected(cfg, s)) >= Remaining(cfg, s)
    ensures VisitsIdle(cfg, s, ins)
    decreases |ins|
  {
    if !s.mem.fsm.Idle? {
      RemainingBound(cfg, s);
      hide Remaining, Step, Invariant, Selected, Legal;
      var i, s' := ins[0], Step(cfg, s, ins[0]);
      if i.act == Exec(Selected(cfg, s)) { OwnStepAdvances(cfg, s, i); } else { OthersDoNotDelay(cfg, s, i); }
      if !s'.mem.fsm.Idle? {
        StepKeepsInvariant(cfg, s, i);
        ReachesIdle(cfg, s', ins[1..]);
      } else {
        IdleVisited(cfg, s', ins[1..]);
      }
    }
  }

  lemma IdleVisited(cfg: Config, s: System, ins: seq<Input>)
    requires LegalRun(cfg, s, ins) && s.mem.fsm.Idle?
    ensures VisitsIdle(cfg, s, ins)
  {
  }
}
