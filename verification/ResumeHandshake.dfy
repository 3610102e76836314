/** When a resume request is heard: the acknowledgement that is cleared belongs to the hart that
    was selected before the write. */
module ResumeHandshake {
  import opened Words
  import opened DebugRom
  import opened Harts
  import opened AbstractCommands
  import opened DebugMemory
  import opened ControlRegs
  import opened CommandRuns
  import opened CommandRefinement
  import opened ParkLoop
  import opened DebugSystem

  /** A dmcontrol write that selects a hart and asks it to resume. */
  predicate AsksResume(s: System, i: Input) {
    && !s.csrs.control.resumereq && i.op.Write? && i.op.addr == DMCONTROL
    && ControlOf(i.op.data).resumereq && !ControlOf(i.op.data).haltreq
  }

  /** In the cycle of the write only the acknowledgement of the old selection is cleared. */
  lemma AcknowledgementCleared(cfg: Config, s: System, i: Input, k: nat)
    requires Sound(cfg, s, i) && AsksResume(s, i) && k < cfg.harts
    ensures var s1 := Step(cfg, s, i);
      && |s1.mem.resuming| == cfg.harts && |s1.mem.halted| == cfg.harts && s1.mem.fsm.Idle?
      && s1.mem.resuming[k] == (s.mem.resuming[k] && k != Selected(cfg, s))
      && s1.csrs.control == ControlOf(i.op.data)
  {
    hide Coherent, At, BusAccess, HartIndex, Selected, NextHarts, NextPast, ControlOf, Unsupported;
    NextVectorLengths(s.mem, MemInput(cfg, s, i));
  }

  /** In the next cycle the request is taken up unless a stale acknowledgement hides it; then it
      is dropped for good. */
  lemma RequestSampled(cfg: Config, s: System, i: Input)
    requires Sound(cfg, s, i) && s.mem.fsm.Idle? && s.csrs.control.resumereq && !s.csrs.control.haltreq
    requires Selected(cfg, s) < cfg.harts && s.mem.halted[Selected(cfg, s)]
    ensures Step(cfg, s, i).mem.fsm.Resume? <==> !s.mem.resuming[Selected(cfg, s)]
    ensures s.mem.resuming[Selected(cfg, s)] ==> !Step(cfg, s, i).csrs.control.resumereq
  {
    hide Stands, BusAccess, HartIndex, Selected, NextHarts, NextPast, ControlOf, Unsupported, Reporting, Legal;
    assert ValidMemIn(MemInput(cfg, s, i)) by { ReportingValid(cfg, s, i); }
    assert s.mem.resuming[Selected(cfg, s)] ==> AnyAck(s.mem.resuming);
  }

  /** A halt request beside it wins: no resume request is taken up while it stands. */
  lemma HaltRequestWins(cfg: Config, s: System, i: Input)
    requires Sound(cfg, s, i) && s.mem.fsm.Idle? && s.csrs.control.haltreq && Selected(cfg, s) < cfg.harts
    ensures !Step(cfg, s, i).mem.fsm.Resume?
  {
    hide Stands, BusAccess, HartIndex, Selected, NextHarts, NextPast, ControlOf, Unsupported, Reporting, Legal;
    assert ValidMemIn(MemInput(cfg, s, i)) by { ReportingValid(cfg, s, i); }
  }

  /** Selecting a halted hart and asking it to resume in one write is heard if and only if that
      hart was selected already or shows no acknowledgement of an earlier resume. */
  lemma ResumeHeardExactly(cfg: Config, s: System, i1: Input, i2: Input)
    requires Invariant(cfg, s) && Legal(cfg, s, i1) && AsksResume(s, i1) && ValidMemIn(MemInput(cfg, s, i1))
    requires var s1 := Step(cfg, s, i1);
      WellFormed(cfg, s1) && Legal(cfg, s1, i2) && Selected(cfg, s1) < cfg.harts && s1.mem.halted[Selected(cfg, s1)]
      && ValidMemIn(MemInput(cfg, s1, i2))
    ensures var s1 := Step(cfg, s, i1); var s2 := Step(cfg, s1, i2); var k := Selected(cfg, s1);
      && |s.mem.resuming| == cfg.harts
      && (s2.mem.fsm.Resume? <==> k == Selected(cfg, s) || !s.mem.resuming[k])
      && (!s2.mem.fsm.Resume? ==> !s2.csrs.control.resumereq)
  {
    var s1 := Step(cfg, s, i1);
    var k := Selected(cfg, s1);
    ReportsAreGenuine(cfg, s, i1);
    StepKeepsInvariant(cfg, s, i1);
    ReportsAreGenuine(cfg, s1, i2);
    InvariantSound(cfg, s, i1);
    InvariantSound(cfg, s1, i2);
    hide Invariant, Legal, Reporting, Step, Selected, FsmOk, HartOk, ControlOf, Sound, MemInput, ValidMemIn;
    AcknowledgementCleared(cfg, s, i1, k);
    RequestSampled(cfg, s1, i2);
  }

  lemma InvariantSound(cfg: Config, s: System, i: Input)
    requires Invariant(cfg, s) && Legal(cfg, s, i) && Reporting(cfg, s, i)
    ensures Sound(cfg, s, i) && |s.mem.resuming| == cfg.harts
  {
  }

  // ---- A lost request -----------------------------------------------------------------------------

  /** An acknowledgement outlives everything, the next debug entry included, except a new resume
      request that is written while its hart is selected. */
  lemma AcknowledgementStays(cfg: Config, s: System, i: Input, k: nat)
    requires Sound(cfg, s, i) && k < cfg.harts && s.mem.resuming[k]
    ensures |Step(cfg, s, i).mem.resuming| == cfg.harts
    ensures Step(cfg, s, i).mem.resuming[k] || (ClearsResumeAck(s.csrs, i.op) && k == Selected(cfg, s))
  {
    hide Coherent, At, BusAccess, HartIndex, Selected, NextHarts, NextPast, NextCsrs, ControlOf, Unsupported;
    NextVectorLengths(s.mem, MemInput(cfg, s, i));
  }

  const TWO_HARTS := Config(0, 2)

  function PlainHart(id: Word, pc: Word, debug: bool): Hart {
    Hart(id, seq(32, _ => 0), false, seq(32, _ => 0), 0, 0, map[CSR_DPC := 0], pc, debug)
  }

  /** Hart 0 runs and is selected; hart 1 waits in the park loop, after a resume and another debug
      entry, and still shows its acknowledgement. */
  function StaleState(): System {
    var harts := [PlainHart(0, 0, false), PlainHart(1, AddressOf(false, LoopHartId), true)];
    var archs := [ArchOf(harts[0]), ArchOf(harts[1])];
    System(RESET_CSRS.(control := RESET_CSRS.control.(dmactive := true)),
           Mem(Idle, [false, true], [false, true], ZERO_DOUBLEWORD, false, 0, false), harts,
           Past(archs, [[], []], archs, Outcome(archs[0], 0, false), false, 0))
  }

  /** Select hart 1 and ask it to resume, in one write; then nothing. */
  const ASK := Input(Write(DMCONTROL, ControlWord(Control(false, true, 1, false, true))), NoAct, NoAccess, 0)
  const WAIT := Input(Nothing, NoAct, NoAccess, 0)

  lemma StaleStateHolds()
    ensures Invariant(TWO_HARTS, StaleState())
    ensures Selected(TWO_HARTS, StaleState()) == 0
  {
    var cfg, s := TWO_HARTS, StaleState();
    StaleWellFormed();
    StaleHart();
    hide Coherent, At, Ends, WellFormed, AddressOf, Aligned, HartIndex;
    ParkedAt(cfg, s, 1, LoopHartId);
  }

  lemma StaleWellFormed()
    ensures WellFormed(TWO_HARTS, StaleState()) && Selected(TWO_HARTS, StaleState()) == 0
  {
    TwoAligned();
    ZeroIsPlain();
    hide Aligned, Plain, AddressOf;
  }

  lemma StaleHart()
    ensures var h := StaleState().harts[1];
      At(TWO_HARTS, h, LoopHartId) && Coherent(TWO_HARTS, LoopHartId, h, ArchOf(h))
  {
  }

  lemma TwoAligned()
    ensures Aligned(2) == 2
  {
  }

  lemma ZeroIsPlain()
    ensures Plain(false, 0)
  {
  }

  lemma AskDecodes()
    ensures ControlOf(ASK.op.data) == Control(false, true, 1, false, true)
  {
    ControlRoundTrip(Control(false, true, 1, false, true));
  }

  lemma AskIsLegal()
    requires WellFormed(TWO_HARTS, StaleState()) && Selected(TWO_HARTS, StaleState()) == 0
    ensures Legal(TWO_HARTS, StaleState(), ASK) && AsksResume(StaleState(), ASK)
    ensures ValidMemIn(MemInput(TWO_HARTS, StaleState(), ASK))
  {
    AskDecodes();
    hide WellFormed, ControlOf, ControlWord, Unsupported, Aligned, HartIndex, PlainHart;
  }

  lemma NobodyResumes(cfg: Config, s: System, i: Input, k: nat)
    requires Sound(cfg, s, i) && s.mem.fsm.Idle? && k < cfg.harts
    ensures !Reports(MemInput(cfg, s, i), RESUMING, k)
  {
    if Reports(MemInput(cfg, s, i), RESUMING, k) { ResumingSeen(cfg, s, i, k); }
  }

  /** After the write hart 1 is selected, still halted, and the controller idle. */
  lemma AskSelects(s: System)
    requires s == StaleState() && Sound(TWO_HARTS, s, ASK) && AsksResume(s, ASK) && |s.mem.halted| == 2
    ensures var s1 := Step(TWO_HARTS, s, ASK);
      Selected(TWO_HARTS, s1) == 1 && s1.mem.fsm.Idle? && |s1.mem.halted| == 2 && Bit(s1.mem.halted, 1)
  {
    AskDecodes();
    TwoAligned();
    AcknowledgementCleared(TWO_HARTS, s, ASK, 1);
    FlagsKept(TWO_HARTS, s, ASK, 1);
    NobodyResumes(TWO_HARTS, s, ASK, 1);
    hide Sound, AsksResume, MemInput, Step, ControlOf;
  }

  lemma WaitIsLegal(s: System)
    requires WellFormed(TWO_HARTS, s)
    ensures Legal(TWO_HARTS, s, WAIT) && ValidMemIn(MemInput(TWO_HARTS, s, WAIT))
  {
    hide HartIndex, Aligned, Unsupported;
  }

  lemma InvariantShapes(cfg: Config, s: System)
    requires Invariant(cfg, s)
    ensures WellFormed(cfg, s)
  {
  }

  /** The request of hart 1 is lost: it is not taken up, and it is dropped. */
  lemma RequestLost()
    ensures Invariant(TWO_HARTS, StaleState()) && Legal(TWO_HARTS, StaleState(), ASK) && AsksResume(StaleState(), ASK)
    ensures ValidMemIn(MemInput(TWO_HARTS, StaleState(), ASK))
    ensures var s1 := Step(TWO_HARTS, StaleState(), ASK);
      && WellFormed(TWO_HARTS, s1) && Legal(TWO_HARTS, s1, WAIT) && Selected(TWO_HARTS, s1) == 1 && Bit(s1.mem.halted, 1)
      && ValidMemIn(MemInput(TWO_HARTS, s1, WAIT))
      && !Step(TWO_HARTS, s1, WAIT).mem.fsm.Resume? && !Step(TWO_HARTS, s1, WAIT).csrs.control.resumereq
  {
    var cfg, s := TWO_HARTS, StaleState();
    StaleStateHolds();
    assert WellFormed(cfg, s) && |s.mem.halted| == 2;
    AskIsLegal();
    StepKeepsInvariant(cfg, s, ASK);
    var s1 := Step(cfg, s, ASK);
    InvariantSound(cfg, s, ASK);
    AskSelects(s);
    InvariantShapes(cfg, s1);
    WaitIsLegal(s1);
    hide Invariant, Step, Legal, AsksResume, MemInput, ControlOf, Sound, WellFormed, StaleState, Selected;
    ResumeHeardExactly(cfg, s, ASK, WAIT);
  }
}
