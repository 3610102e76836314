/** From the debugger's write of a command to the idle controller: the command completes, and what
    it has done by then is one register access. */
module CommandCompletes {
  import opened Words
  import opened DebugRom
  import opened Harts
  import opened AbstractCommands
  import opened DebugMemory
  import opened ParkLoop
  import opened CommandRuns
  import opened CommandRefinement
  import opened ControlRegs
  import opened DebugSystem
  import opened DebugRuns
  import opened DebugProgress

  /** The state in which the controller is idle for the first time in a run. */
  function FirstIdle(cfg: Config, s: System, ins: seq<Input>): System
    requires LegalRun(cfg, s, ins) && VisitsIdle(cfg, s, ins)
    decreases |ins|
  {
    if s.mem.fsm.Idle? then s else FirstIdle(cfg, Step(cfg, s, ins[0]), ins[1..])
  }

  /** The access of command `c` to hart `k` has taken place: on registers `a` and data `d`. */
  predicate Served(cfg: Config, f: System, k: nat, c: Word, a: Arch, d: Word)
    requires ValidArch(a)
  {
    var out := ProgramAccess(Two(cfg), c, a, d);
    && f.mem.fsm.Idle? && |f.csrs.data| == 2 && f.csrs.data[0] == out.data && HoldsRegisters(cfg, f, k, out.arch)
    && (f.csrs.cmderr == Code(ErrException) <==> out.trapped)
    && (!HitsBorrowed(Two(cfg), c) ==> out == PlainAccess(c, a, d))
  }

  // ---- From GOING ---------------------------------------------------------------------------------

  lemma {:induction false} ExecutedByIdle(cfg: Config, s: System, ins: seq<Input>, k: nat)
    requires Invariant(cfg, s) && InProgram(cfg, s, k) && k < cfg.harts
    requires LegalRun(cfg, s, ins) && VisitsIdle(cfg, s, ins)
    ensures var f := FirstIdle(cfg, s, ins); Invariant(cfg, f) && Carries(s, f, k) && Returned(f, k)
    decreases |ins|
  {
    var s' := Step(cfg, s, ins[0]);
    ServiceStep(cfg, s, ins[0], k);
    hide Invariant, Step, Selected, MemInput, WellFormed, Legal, Sound, Returned;
    if InProgram(cfg, s', k) {
      ExecutedByIdle(cfg, s', ins[1..], k);
      CarriesOn(s, s', FirstIdle(cfg, s', ins[1..]), k);
    } else {
      ReturnedMeansIdle(s', k);
    }
  }

  lemma CarriesOn(s: System, t: System, f: System, k: nat)
    requires Carries(s, t, k) && Carries(t, f, k)
    ensures Carries(s, f, k)
  {
  }

  lemma ReturnedMeansIdle(f: System, k: nat)
    requires Returned(f, k)
    ensures f.mem.fsm.Idle? && |f.csrs.data| == 2
  {
  }

  // ---- From the go flag -------------------------------------------------------------------------------

  /** While the go flag is up and not answered nothing of the command changes. */
  predicate SameRequest(s: System, t: System, k: nat) {
    && k < |s.past.arch| && k < |t.past.arch| && t.past.arch[k] == s.past.arch[k]
    && t.csrs.command == s.csrs.command && t.csrs.data == s.csrs.data
    && (s.csrs.cmderr != Code(ErrException) ==> t.csrs.cmderr != Code(ErrException))
  }

  /** One clock with the go flag up: it stays up, or the hart reports GOING. */
  lemma GoWaits(cfg: Config, s: System, i: Input, k: nat)
    requires Invariant(cfg, s) && Legal(cfg, s, i) && RaisesGo(cfg, s, k) && k < cfg.harts
    ensures Sound(cfg, s, i) && Invariant(cfg, Step(cfg, s, i))
    ensures Goes(cfg, s, i) ==> i.act == Exec(k) && Stands(cfg, s, k, StoreGoing)
    ensures !Goes(cfg, s, i) ==> RaisesGo(cfg, Step(cfg, s, i), k) && SameRequest(s, Step(cfg, s, i), k)
  {
    InvariantParts(cfg, s, i, k);
    StepKeepsInvariant(cfg, s, i);
    FlaggedStands(cfg, s, k);
    FlagsKept(cfg, s, i, k);
    if Goes(cfg, s, i) {
      GoingComesFrom(cfg, s, i);
    } else {
      CommandKept(cfg, s, i);
      SelectionKept(cfg, s, i);
      WaitingQuiet(cfg, s, i, k);
    }
  }

  lemma GoingComesFrom(cfg: Config, s: System, i: Input)
    requires Sound(cfg, s, i) && Goes(cfg, s, i)
    ensures i.act == Exec(Selected(cfg, s)) && Stands(cfg, s, Selected(cfg, s), StoreGoing)
  {
    hide Stands, BusAccess, HartIndex, FsmOk, Legal;
  }

  /** No data, no exception and no debug entry while the selected hart polls. */
  lemma WaitingQuiet(cfg: Config, s: System, i: Input, k: nat)
    requires Sound(cfg, s, i) && RaisesGo(cfg, s, k) && k < cfg.harts && !Goes(cfg, s, i) && s.harts[k].debug
    ensures !WritesData(MemInput(cfg, s, i))
    ensures k < |Step(cfg, s, i).past.arch| && Step(cfg, s, i).past.arch[k] == s.past.arch[k]
    ensures s.csrs.cmderr != Code(ErrException) ==> Step(cfg, s, i).csrs.cmderr != Code(ErrException)
  {
    hide Stands, BusAccess, HartIndex, ControlOf, NextHarts, Plain, Unsupported, ProgramAccess, RequestOf, BitAt, Selected;
  }

  /** From the go flag on: when the controller is idle again the access has taken place. */
  lemma {:induction false} GoServed(cfg: Config, s: System, ins: seq<Input>, k: nat)
    requires Invariant(cfg, s) && RaisesGo(cfg, s, k) && k < cfg.harts && s.csrs.cmderr != Code(ErrException)
    requires LegalRun(cfg, s, ins) && VisitsIdle(cfg, s, ins)
    ensures HoldsRegisters(cfg, s, k, s.past.arch[k]) && ValidArch(s.past.arch[k])
    ensures Served(cfg, FirstIdle(cfg, s, ins), k, s.csrs.command, s.past.arch[k], s.csrs.data[0])
    decreases |ins|
  {
    FlaggedStands(cfg, s, k);
    PolledHolds(cfg, s, k, PointOf(cfg, s.harts[k]));
    var i, s1 := ins[0], Step(cfg, s, ins[0]);
    assert ValidArch(s.past.arch[k]);
    GoWaits(cfg, s, i, k);
    hide Invariant, Step, MemInput, WellFormed, Legal, Sound, Goes, HoldsRegisters, Served, Stands, ValidArch, Selected;
    if Goes(cfg, s, i) {
      GoingServed(cfg, s, i, ins[1..], k);
    } else {
      GoServed(cfg, s1, ins[1..], k);
    }
  }

  /** The clock of the GOING report. */
  lemma GoingServed(cfg: Config, s: System, i: Input, rest: seq<Input>, k: nat)
    requires Invariant(cfg, s) && Sound(cfg, s, i) && i.act == Exec(k) && Stands(cfg, s, k, StoreGoing)
    requires s.csrs.cmderr != Code(ErrException)
    requires LegalRun(cfg, Step(cfg, s, i), rest) && VisitsIdle(cfg, Step(cfg, s, i), rest)
    ensures k < |s.past.arch| && ValidArch(s.past.arch[k]) && |s.csrs.data| == 2
    ensures Served(cfg, FirstIdle(cfg, Step(cfg, s, i), rest), k, s.csrs.command, s.past.arch[k], s.csrs.data[0])
  {
    var s1, f := Step(cfg, s, i), FirstIdle(cfg, Step(cfg, s, i), rest);
    assert k < cfg.harts && ValidArch(s.past.arch[k]) && |s.csrs.data| == 2;
    StepKeepsInvariant(cfg, s, i);
    GoingStep(cfg, s, i, k);
    GoingRecorded(cfg, s, i, k);
    GoingKeepsError(cfg, s, i, k);
    ProgramIsPlainAccess(Two(cfg), s.csrs.command, s.past.arch[k], s.csrs.data[0]);
    assert k < |s1.past.arch|;
    hide Invariant, Step, MemInput, WellFormed, Legal, Sound, Stands, HoldsRegisters, ProgramAccess, PlainAccess, ValidArch, HartOk, Selected;
    ExecutedByIdle(cfg, s1, rest, k);
    ReturnedMeansIdle(f, k);
    HaltedHolds(cfg, f, k);
  }

  lemma GoingKeepsError(cfg: Config, s: System, i: Input, k: nat)
    requires Sound(cfg, s, i) && i.act == Exec(k) && Stands(cfg, s, k, StoreGoing) && s.csrs.cmderr != Code(ErrException)
    ensures Step(cfg, s, i).csrs.cmderr != Code(ErrException)
  {
    hide Stands, BusAccess, HartIndex, ControlOf, NextHarts, NextPast, Plain, Unsupported, RequestOf, BitAt, Sound, FsmOk, Legal, Reporting;
    SoundParts(cfg, s, i);
    GoingIsEnabled(cfg, s, i, k);
  }

  // ---- From the write of the command ------------------------------------------------------------------------

  /** The controller rests, with hart `k` selected and halted and nothing pending. */
  predicate Resting(cfg: Config, s: System, k: nat) {
    && s.mem.fsm.Idle? && k < cfg.harts && Selected(cfg, s) == k && Bit(s.mem.halted, k)
    && !s.csrs.control.resumereq && s.csrs.cmderr != Code(ErrException)
  }

  /** A clock of the idle controller in which the debugger writes nothing but a command: the halted
      hart stays as it is for the debugger. */
  lemma IdleKeeps(cfg: Config, s: System, i: Input, k: nat)
    requires Sound(cfg, s, i) && Resting(cfg, s, k) && s.harts[k].debug && WellFormed(cfg, Step(cfg, s, i))
    requires i.op.Write? ==> i.op.addr == COMMAND
    ensures var t := Step(cfg, s, i);
      && Selected(cfg, t) == k && Bit(t.mem.halted, k) && !t.csrs.control.resumereq && t.csrs.cmderr != Code(ErrException)
      && t.csrs.data == s.csrs.data && k < |t.past.arch| && t.past.arch[k] == s.past.arch[k]
  {
    IdleReports(cfg, s, i, k);
    IdleArch(cfg, s, i, k);
    IdleCsrs(cfg, s, i, k);
    FlagsKept(cfg, s, i, k);
    hide Stands, BusAccess, HartIndex, NextHarts, NextPast, NextCsrs, NextMem, Plain, Reporting, FsmOk, Legal, MemInput;
  }

  lemma IdleCsrs(cfg: Config, s: System, i: Input, k: nat)
    requires Sound(cfg, s, i) && Resting(cfg, s, k) && !Writes(MemInput(cfg, s, i), EXCEPTION) && !WritesData(MemInput(cfg, s, i))
    requires ValidMemIn(MemInput(cfg, s, i)) && (i.op.Write? ==> i.op.addr == COMMAND)
    ensures var c := Step(cfg, s, i).csrs;
      c.control == s.csrs.control && c.cmderr != Code(ErrException) && c.data == s.csrs.data
  {
    hide Stands, BusAccess, HartIndex, ControlOf, NextHarts, NextPast, Plain, Unsupported, RequestOf, BitAt, Reporting, FsmOk, Legal,
      Selected, AnyAck, NextMem;
  }

  lemma IdleReports(cfg: Config, s: System, i: Input, k: nat)
    requires Sound(cfg, s, i) && s.mem.fsm.Idle? && k < cfg.harts
    ensures ValidMemIn(MemInput(cfg, s, i))
    ensures var m := MemInput(cfg, s, i);
      !Reports(m, RESUMING, k) && !Writes(m, EXCEPTION) && !WritesData(m)
  {
    ReportingValid(cfg, s, i);
    if Reports(MemInput(cfg, s, i), RESUMING, k) { ResumingSeen(cfg, s, i, k); }
    hide Stands, BusAccess, HartIndex, FsmOk, Legal;
  }

  lemma IdleArch(cfg: Config, s: System, i: Input, k: nat)
    requires Sound(cfg, s, i) && s.mem.fsm.Idle? && k < cfg.harts && s.harts[k].debug
    ensures k < |NextPast(cfg, s, i).arch| && NextPast(cfg, s, i).arch[k] == s.past.arch[k]
  {
    hide Stands, BusAccess, HartIndex, Reporting, FsmOk, MemInput, RequestOf, ProgramAccess;
  }

  /** The clock that takes the command over, and the one that raises the go flag. */
  lemma CommandLatched(cfg: Config, s: System, i: Input, k: nat, w: Word)
    requires Sound(cfg, s, i) && Resting(cfg, s, k) && !s.csrs.cmdValid && i.op == Write(COMMAND, w)
    ensures var t := Step(cfg, s, i); t.mem.fsm.Idle? && t.csrs.cmdValid && t.csrs.command == w
  {
    hide Stands, BusAccess, HartIndex, ControlOf, NextHarts, NextPast, Plain, Unsupported, RequestOf, BitAt, Reporting, FsmOk, Legal, Selected;
    assert ValidMemIn(MemInput(cfg, s, i)) by { ReportingValid(cfg, s, i); }
  }

  lemma GoRaised(cfg: Config, s: System, i: Input, k: nat)
    requires Sound(cfg, s, i) && Resting(cfg, s, k) && s.csrs.cmdValid && !Unsupported(s.csrs.command) && !i.op.Write?
    ensures Step(cfg, s, i).mem.fsm.Go? && Step(cfg, s, i).csrs.command == s.csrs.command
  {
    hide Stands, BusAccess, HartIndex, ControlOf, NextHarts, NextPast, Plain, Unsupported, RequestOf, BitAt, Reporting, FsmOk, Legal, Selected;
    assert ValidMemIn(MemInput(cfg, s, i)) by { ReportingValid(cfg, s, i); }
  }

  lemma RestingInDebug(cfg: Config, s: System, i: Input, k: nat)
    requires Invariant(cfg, s) && Legal(cfg, s, i) && Resting(cfg, s, k)
    ensures Sound(cfg, s, i) && Invariant(cfg, Step(cfg, s, i)) && WellFormed(cfg, s) && WellFormed(cfg, Step(cfg, s, i))
    ensures s.harts[k].debug && k < |s.past.arch| && ValidArch(s.past.arch[k])
    ensures HoldsRegisters(cfg, s, k, s.past.arch[k])
  {
    InvariantParts(cfg, s, i, k);
    StepKeepsInvariant(cfg, s, i);
    HaltedHolds(cfg, s, k);
    hide HoldsRegisters;
    assert HartOk(cfg, s, k);
  }

  /** A written command raises the go flag two clocks later for the registers and the data of the
      moment of the write. */
  lemma CommandRaisesGo(cfg: Config, s: System, i1: Input, i2: Input, k: nat, w: Word)
    requires Invariant(cfg, s) && Resting(cfg, s, k) && !s.csrs.cmdValid
    requires Legal(cfg, s, i1) && i1.op == Write(COMMAND, w) && !Unsupported(w)
    requires ValidMemIn(MemInput(cfg, s, i1)) && WellFormed(cfg, Step(cfg, s, i1))
    requires Legal(cfg, Step(cfg, s, i1), i2) && !i2.op.Write? && ValidMemIn(MemInput(cfg, Step(cfg, s, i1), i2))
    ensures var t := Step(cfg, Step(cfg, s, i1), i2);
      && Invariant(cfg, t) && RaisesGo(cfg, t, k) && t.csrs.cmderr != Code(ErrException)
      && t.csrs.command == w && t.csrs.data == s.csrs.data && k < |s.past.arch| && k < |t.past.arch|
      && t.past.arch[k] == s.past.arch[k] && HoldsRegisters(cfg, s, k, s.past.arch[k]) && ValidArch(s.past.arch[k])
  {
    var s1 := Step(cfg, s, i1);
    var t := Step(cfg, s1, i2);
    RestingInDebug(cfg, s, i1, k);
    hide Invariant, Step, MemInput, WellFormed, Legal, Sound, HoldsRegisters, Selected, ValidArch, Unsupported;
    IdleKeeps(cfg, s, i1, k);
    CommandLatched(cfg, s, i1, k, w);
    RestingInDebug(cfg, s1, i2, k);
    IdleKeeps(cfg, s1, i2, k);
    GoRaised(cfg, s1, i2, k);
    assert k < |t.past.arch| by { LengthsOf(cfg, t, k); }
  }

  /** From the write of a command to the idle controller. With the selected hart halted, nothing
      pending, and no write in the next clock, the command is taken up; whatever the debugger and
      the other harts do then, the controller is idle again by the time the hart has made 44 steps,
      and at the first such moment exactly the access has taken place on the registers the hart
      held and the data at the write: the plain access, unless the command aims at a scratch
      register in use. */
  lemma CommandCompleted(cfg: Config, s: System, i1: Input, i2: Input, ins: seq<Input>, k: nat, w: Word)
    requires Invariant(cfg, s) && Resting(cfg, s, k) && !s.csrs.cmdValid
    requires Legal(cfg, s, i1) && i1.op == Write(COMMAND, w) && !Unsupported(w)
    requires ValidMemIn(MemInput(cfg, s, i1)) && WellFormed(cfg, Step(cfg, s, i1))
    requires Legal(cfg, Step(cfg, s, i1), i2) && !i2.op.Write? && ValidMemIn(MemInput(cfg, Step(cfg, s, i1), i2))
    requires LegalRun(cfg, Step(cfg, Step(cfg, s, i1), i2), ins) && OwnSteps(ins, k) >= 44
    ensures var t := Step(cfg, Step(cfg, s, i1), i2);
      && RaisesGo(cfg, t, k) && VisitsIdle(cfg, t, ins) && k < |s.harts| && ValidHart(s.harts[k])
      && ValidArch(ProgramRegisters(cfg, s.harts[k])) && |s.csrs.data| == 2
      && Served(cfg, FirstIdle(cfg, t, ins), k, w, ProgramRegisters(cfg, s.harts[k]), s.csrs.data[0])
  {
    var t := Step(cfg, Step(cfg, s, i1), i2);
    CommandRaisesGo(cfg, s, i1, i2, k, w);
    LengthsOf(cfg, s, k);
    assert ProgramRegisters(cfg, s.harts[k]) == s.past.arch[k];
    assert WellFormed(cfg, t) && FsmOk(cfg, t);
    hide Invariant, Step, MemInput, Legal, ProgramRegisters, Served, ValidArch, Unsupported, FsmOk, OwnSteps;
    RemainingBound(cfg, t);
    hide WellFormed, Remaining, Selected;
    ReachesIdle(cfg, t, ins);
    GoServed(cfg, t, ins, k);
  }
}
