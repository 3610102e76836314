/** A halt and the resume that ends it, seen from the program: registers and program counter. */
module HaltResume {
  import opened Words
  import opened DebugRom
  import opened Harts
  import opened DebugMemory
  import opened ParkLoop
  import opened CommandRuns
  import opened CommandRefinement
  import opened ControlRegs
  import opened DebugSystem
  import opened DebugRuns

  /** Hart `k` stays in debug mode through every state of a run. */
  predicate StaysIn(cfg: Config, s: System, ins: seq<Input>, k: nat)
    requires LegalRun(cfg, s, ins)
    decreases |ins|
  {
    k < |s.harts| && s.harts[k].debug && (|ins| > 0 ==> StaysIn(cfg, Step(cfg, s, ins[0]), ins[1..], k))
  }

  lemma EntryStep(cfg: Config, s: System, i: Input, k: nat)
    requires WellFormed(cfg, s) && Legal(cfg, s, i) && ValidMemIn(MemInput(cfg, s, i)) && k < cfg.harts && s.harts[k].debug
    ensures k < |Step(cfg, s, i).past.entry| && Step(cfg, s, i).past.entry[k] == s.past.entry[k]
  {
    hide BusAccess, NextCsrs, NextMem, HartIndex, Selected, ControlOf, ProgramAccess, MemInput, NextHarts, Goes, ArchOf, Entered;
  }

  /** The record of the entry stays as long as the hart does. */
  lemma {:induction false} EntryKept(cfg: Config, s: System, ins: seq<Input>, k: nat)
    requires LegalRun(cfg, s, ins) && StaysIn(cfg, s, ins, k) && k < cfg.harts
    ensures k < |s.past.entry| && k < |RunOf(cfg, s, ins).past.entry| && RunOf(cfg, s, ins).past.entry[k] == s.past.entry[k]
    decreases |ins|
  {
    PastShapes(cfg, s, ins, k);
    if |ins| > 0 {
      hide WellFormed, Legal, MemInput, Step, ValidMemIn;
      EntryStep(cfg, s, ins[0], k);
      EntryKept(cfg, Step(cfg, s, ins[0]), ins[1..], k);
    }
  }

  lemma PastShapes(cfg: Config, s: System, ins: seq<Input>, k: nat)
    requires LegalRun(cfg, s, ins) && k < cfg.harts
    ensures WellFormed(cfg, s) && |s.past.entry| == cfg.harts && |s.past.log| == cfg.harts && |s.harts| == cfg.harts
    ensures ValidArch(s.past.entry[k]) && ValidHart(s.harts[k])
  {
    hide Legal, MemInput, Step, ValidMemIn;
  }

  lemma EntryRecorded(cfg: Config, s: System, i: Input, k: nat)
    requires WellFormed(cfg, s) && Legal(cfg, s, i) && ValidMemIn(MemInput(cfg, s, i)) && i.act == Enter(k)
    ensures k < |Step(cfg, s, i).past.entry| && k < |s.harts| && ValidHart(s.harts[k])
    ensures Step(cfg, s, i).past.entry[k] == ArchOf(s.harts[k]).(csr := s.harts[k].csr[CSR_DPC := s.harts[k].pc])
  {
    hide BusAccess, NextCsrs, NextMem, HartIndex, Selected, ControlOf, ProgramAccess, MemInput, NextHarts, Goes;
  }

  /** Between a halt and the dret that ends it: the program finds the registers it had, with the served
      commands applied, and goes on at dpc. Without a command in between it finds all of its registers
      unchanged, s0 and a0 included, and goes on where it was stopped. */
  lemma HaltAndResume(cfg: Config, s0: System, ins0: seq<Input>, enter: Input, ins: seq<Input>, leave: Input, k: nat)
    requires Initial(cfg, s0) && LegalRun(cfg, s0, ins0)
    requires var s := RunOf(cfg, s0, ins0);
      WellFormed(cfg, s) && Legal(cfg, s, enter) && ValidMemIn(MemInput(cfg, s, enter)) && enter.act == Enter(k)
    requires var s1 := Step(cfg, RunOf(cfg, s0, ins0), enter);
      LegalRun(cfg, s1, ins) && StaysIn(cfg, s1, ins, k)
    requires var f := RunOf(cfg, Step(cfg, RunOf(cfg, s0, ins0), enter), ins);
      WellFormed(cfg, f) && Legal(cfg, f, leave) && leave.act == Exec(k)
      && !StepHart(cfg, SystemView(cfg, f, leave.lines), f.harts[k]).debug
    ensures k < |RunOf(cfg, s0, ins0).harts| && ValidHart(RunOf(cfg, s0, ins0).harts[k])
    ensures var h := RunOf(cfg, s0, ins0).harts[k];
      var f := RunOf(cfg, Step(cfg, RunOf(cfg, s0, ins0), enter), ins);
      var h' := StepHart(cfg, SystemView(cfg, f, leave.lines), f.harts[k]);
      && ArchOf(h') == Replay(Two(cfg), ArchOf(h).(csr := h.csr[0x7b1 := h.pc]), f.past.log[k])
      && 0x7b1 in h'.csr && h'.pc == h'.csr[0x7b1]
      && (f.past.log[k] == [] ==>
            h'.gpr == h.gpr && h'.fpr == h.fpr && h'.pc == h.pc && h'.csr == h.csr[0x7b1 := h.pc])
  {
    var s := RunOf(cfg, s0, ins0);
    hide Initial, Reached, Invariant, Replayed, ArchOf, StepHart, HartOk, Stands, RunOf, LegalRun, Step, Legal, WellFormed, MemInput, ValidMemIn,
      StaysIn, Replay, ValidArch;
    InitialReached(cfg, s0);
    RunsReach(cfg, s0, ins0);
    ReachedStep(cfg, s, enter);
    EntryRecorded(cfg, s, enter, k);
    var s1 := Step(cfg, s, enter);
    RunsReach(cfg, s1, ins);
    var f := RunOf(cfg, s1, ins);
    ReachedParts(cfg, f);
    ExecIsHart(cfg, f, leave, k);
    EntryKept(cfg, s1, ins, k);
    LeavesByDret(cfg, f, leave, k);
    ReplayedAt(cfg, f, k);
    ReplayOfNothing(Two(cfg), f.past.entry[k]);
    PartsOf(StepHart(cfg, SystemView(cfg, f, leave.lines), f.harts[k]), s.harts[k]);
  }

  lemma ExecIsHart(cfg: Config, f: System, i: Input, k: nat)
    requires WellFormed(cfg, f) && Legal(cfg, f, i) && i.act == Exec(k)
    ensures k < cfg.harts && |f.past.entry| == cfg.harts && |f.past.log| == cfg.harts && |f.past.arch| == cfg.harts && |f.harts| == cfg.harts
    ensures ValidArch(f.past.entry[k]) && ValidView(SystemView(cfg, f, i.lines)) && ValidHart(f.harts[k])
  {
    ViewsValid(cfg, f, i.lines);
  }

  lemma ReplayOfNothing(two: bool, a: Arch)
    requires ValidArch(a)
    ensures Replay(two, a, []) == a
  {
  }

  lemma PartsOf(h': Hart, h: Hart)
    ensures ArchOf(h') == ArchOf(h).(csr := h.csr[CSR_DPC := h.pc]) ==>
      h'.gpr == h.gpr && h'.fpr == h.fpr && h'.csr == h.csr[CSR_DPC := h.pc]
  {
  }
}
