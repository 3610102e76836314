/** The JTAG transport: the TAP controller with its registers, and the debug module access engine
    behind it. */
module JtagTransport {
  import opened Words
  import opened Serdes

  // ---- TAP controller -----------------------------------------------------------------------------

  datatype TapState =
    | TestLogicReset | RunTestIdle | SelectDrScan
    | CaptureDr | ShiftDr | Exit1Dr | PauseDr | Exit2Dr | UpdateDr
    | SelectIrScan | CaptureIr | ShiftIr | Exit1Ir | PauseIr | Exit2Ir | UpdateIr

  function NextTap(s: TapState, tms: bool): TapState {
    match s
    case TestLogicReset => if tms then TestLogicReset else RunTestIdle
    case RunTestIdle => if tms then SelectDrScan else RunTestIdle
    case SelectDrScan => if tms then SelectIrScan else CaptureDr
    case CaptureDr => if tms then Exit1Dr else ShiftDr
    case ShiftDr => if tms then Exit1Dr else ShiftDr
    case Exit1Dr => if tms then UpdateDr else PauseDr
    case PauseDr => if tms then Exit2Dr else PauseDr
    case Exit2Dr => if tms then UpdateDr else ShiftDr
    case UpdateDr => if tms then SelectDrScan else RunTestIdle
    case SelectIrScan => if tms then TestLogicReset else CaptureIr
    case CaptureIr => if tms then Exit1Ir else ShiftIr
    case ShiftIr => if tms then Exit1Ir else ShiftIr
    case Exit1Ir => if tms then UpdateIr else PauseIr
    case PauseIr => if tms then Exit2Ir else PauseIr
    case Exit2Ir => if tms then UpdateIr else ShiftIr
    case UpdateIr => if tms then SelectDrScan else RunTestIdle
  }

  function Walk(s: TapState, tms: seq<bool>): TapState
    decreases |tms|
  {
    if |tms| == 0 then s else Walk(NextTap(s, tms[0]), tms[1..])
  }

  /** Clocks with TMS high that separate a state from the reset state. */
  function ResetDistance(s: TapState): nat {
    match s
    case TestLogicReset => 0
    case SelectIrScan => 1
    case SelectDrScan => 2
    case RunTestIdle | UpdateDr | UpdateIr => 3
    case Exit1Dr | Exit2Dr | Exit1Ir | Exit2Ir => 4
    case _ => 5
  }

  function Highs(n: nat): seq<bool> {
    seq(n, _ => true)
  }

  /** Holding TMS high reaches the reset state after exactly the distance, hence after five clocks
      from anywhere, and stays there. */
  lemma {:induction false} HighsReset(s: TapState, n: nat)
    ensures Walk(s, Highs(n)) == TestLogicReset <==> n >= ResetDistance(s)
    ensures ResetDistance(s) <= 5
    decreases n
  {
    if n > 0 {
      assert Highs(n)[1..] == Highs(n - 1);
      HighsReset(NextTap(s, true), n - 1);
    }
  }

  // ---- Registers and the access engine ------------------------------------------------------------------

  const IDCODE: nat := 0x01
  const DTMCSR: nat := 0x10
  const DMIACCESS: nat := 0x11

  datatype Engine = Idle | ReadReq | WaitReadValid | WriteReq | WaitWriteValid

  datatype DmiError = NoError | Busy

  /** Vectors are lowest bit first. `dr` is {address, data, op}. */
  datatype Dtm = Dtm(
    tap: TapState, irShift: seq<bool>, ir: nat, dtmcs: seq<bool>, dr: seq<bool>,
    engine: Engine, address: seq<bool>, data: seq<bool>, error: DmiError)

  predicate ValidDtm(s: Dtm) {
    |s.irShift| == 5 && |s.dtmcs| == 32 && |s.dr| == 41 && |s.address| == 7 && |s.data| == 32
  }

  /** One test clock: the pads, the readiness of the request channel, and a response if one arrives. */
  datatype DtmIn = DtmIn(tms: bool, tdi: bool, ready: bool, valid: bool, resp: seq<bool>)

  predicate ValidDtmIn(i: DtmIn) {
    |i.resp| == 32
  }

  function Selects(s: Dtm, reg: nat): bool { s.ir == reg }

  function OpRead(dr: seq<bool>): bool
    requires |dr| == 41
  {
    dr[0] && !dr[1]
  }

  function OpWrite(dr: seq<bool>): bool
    requires |dr| == 41
  {
    !dr[0] && dr[1]
  }

  /** A new request is taken over from the shifted register. */
  predicate Accepts(s: Dtm) {
    s.engine.Idle? && s.tap.UpdateDr? && Selects(s, DMIACCESS) && s.error.NoError?
  }

  /** The debugger was too fast: it updates any register during an access, or captures any register
      during a read. */
  predicate TooFast(s: Dtm) {
    (s.tap.UpdateDr? && !s.engine.Idle?) || (s.tap.CaptureDr? && (s.engine.ReadReq? || s.engine.WaitReadValid?))
  }

  predicate ClearsError(s: Dtm)
    requires ValidDtm(s)
  {
    s.tap.UpdateDr? && s.dtmcs[16] && Selects(s, DTMCSR)
  }

  function NextEngine(s: Dtm, i: DtmIn): Engine
    requires ValidDtm(s)
  {
    match s.engine
    case Idle => if Accepts(s) && OpRead(s.dr) then ReadReq else if Accepts(s) && OpWrite(s.dr) then WriteReq else Idle
    case ReadReq => if i.ready then WaitReadValid else ReadReq
    case WaitReadValid => if i.valid then Idle else WaitReadValid
    case WriteReq => if i.ready then WaitWriteValid else WriteReq
    case WaitWriteValid => if i.valid then Idle else WaitWriteValid
  }

  function NextError(s: Dtm): DmiError
    requires ValidDtm(s)
  {
    if ClearsError(s) then NoError else if TooFast(s) then Busy else s.error
  }

  function ErrorBits(e: DmiError): seq<bool> {
    if e.Busy? then [true, true] else [false, false]
  }

  function ShiftIn(r: seq<bool>, b: bool): (n: seq<bool>)
    requires |r| > 0
    ensures |n| == |r|
  {
    r[1..] + [b]
  }

  function NextDr(s: Dtm, i: DtmIn): (dr: seq<bool>)
    requires ValidDtm(s)
    ensures |dr| == 41
  {
    if s.tap.TestLogicReset? then Zeros(41)
    else if s.tap.CaptureDr? && Selects(s, DMIACCESS) then
      ErrorBits(if TooFast(s) then Busy else s.error) + s.data + s.address
    else if s.tap.ShiftDr? && Selects(s, DMIACCESS) then ShiftIn(s.dr, i.tdi)
    else s.dr
  }

  /** Idle count 1, seven address bits, version 1, and the error. */
  function DtmcsValue(e: DmiError): (v: seq<bool>)
    ensures |v| == 32
  {
    [true, false, false, false, true, true, true, false, false, false] + ErrorBits(e) + [true] + Zeros(19)
  }

  function NextDtmcs(s: Dtm, i: DtmIn): (v: seq<bool>)
    requires ValidDtm(s)
    ensures |v| == 32
  {
    if s.tap.CaptureDr? && Selects(s, DTMCSR) then DtmcsValue(s.error)
    else if s.tap.ShiftDr? && Selects(s, DTMCSR) then ShiftIn(s.dtmcs, i.tdi)
    else s.dtmcs
  }

  function NextIrShift(s: Dtm, i: DtmIn): (r: seq<bool>)
    requires ValidDtm(s)
    ensures |r| == 5
  {
    if s.tap.TestLogicReset? then Zeros(5)
    else if s.tap.CaptureIr? then [true, false, true, false, false]
    else if s.tap.ShiftIr? then ShiftIn(s.irShift, i.tdi)
    else s.irShift
  }

  function NextDtm(s: Dtm, i: DtmIn): (n: Dtm)
    requires ValidDtm(s) && ValidDtmIn(i)
    ensures ValidDtm(n)
  {
    Dtm(NextTap(s.tap, i.tms), NextIrShift(s, i),
        if s.tap.TestLogicReset? then IDCODE else if s.tap.UpdateIr? then Value(s.irShift) else s.ir,
        NextDtmcs(s, i), NextDr(s, i), NextEngine(s, i),
        if Accepts(s) then s.dr[34..41] else s.address,
        if Accepts(s) then s.dr[2..34] else if s.engine.WaitReadValid? && i.valid then i.resp else s.data,
        NextError(s))
  }

  /** After the test reset the controller starts in the idle state. */
  const DTM_RESET := Dtm(RunTestIdle, Zeros(5), IDCODE, Zeros(32), Zeros(41), Idle, Zeros(7), Zeros(32), NoError)

  class DmiJtag {
    var tap: TapState
    var irShift: seq<bool>
    var ir: nat
    var dtmcs: seq<bool>
    var dr: seq<bool>
    var engine: Engine
    var address: seq<bool>
    var data: seq<bool>
    var error: DmiError

    function State(): Dtm
      reads this
    {
      Dtm(tap, irShift, ir, dtmcs, dr, engine, address, data, error)
    }

    ghost predicate Valid()
      reads this
    {
      ValidDtm(State())
    }

    constructor ()
      ensures Valid() && State() == DTM_RESET
    {
      tap, irShift, ir, dtmcs, dr := RunTestIdle, Zeros(5), IDCODE, Zeros(32), Zeros(41);
      engine, address, data, error := Idle, Zeros(7), Zeros(32), NoError;
    }

    /** The access engine and the sticky error of a clock. */
    method TickEngine(i: DtmIn)
      requires Valid() && ValidDtmIn(i)
      modifies this`engine, this`address, this`data, this`error
      ensures Valid()
      ensures var n := NextDtm(old(State()), i);
        State() == old(State()).(engine := n.engine, address := n.address, data := n.data, error := n.error)
    {
      hide Value, DtmcsValue, ErrorBits, NextTap, NextDr, NextDtmcs, NextIrShift, OpRead, OpWrite, ClearsError, TooFast;
      var tooFast, clears := TooFast(State()), ClearsError(State());
      match engine {
        case Idle =>
          if ir == DMIACCESS && tap.UpdateDr? && error.NoError? {
            address, data := dr[34..41], dr[2..34];
            if OpRead(dr) { engine := ReadReq; } else if OpWrite(dr) { engine := WriteReq; }
          }
        case ReadReq => if i.ready { engine := WaitReadValid; }
        case WaitReadValid => if i.valid { data, engine := i.resp, Idle; }
        case WriteReq => if i.ready { engine := WaitWriteValid; }
        case WaitWriteValid => if i.valid { engine := Idle; }
      }
      if tooFast { error := Busy; }
      if clears { error := NoError; }
    }

    /** One rising edge of the test clock. */
    method Tick(i: DtmIn)
      requires Valid() && ValidDtmIn(i)
      modifies this
      ensures Valid() && State() == NextDtm(old(State()), i)
    {
      hide Value, DtmcsValue, ErrorBits, NextEngine, NextTap, ClearsError;
      var dr', dtmcs', irShift' := NextDr(State(), i), NextDtmcs(State(), i), NextIrShift(State(), i);
      TickEngine(i);
      if tap.TestLogicReset? { ir := IDCODE; } else if tap.UpdateIr? { ir := Value(irShift); }
      dr, dtmcs, irShift, tap := dr', dtmcs', irShift', NextTap(tap, i.tms);
    }
  }

  // ---- With the request channel ------------------------------------------------------------------------------

  /** The transport and whether a request is on its way: the clock domain crossing holds at most
      one, and a response only answers an outstanding request. */
  datatype Jtag = Jtag(dtm: Dtm, outstanding: bool)

  predicate ValidStep(j: Jtag, i: DtmIn) {
    ValidDtm(j.dtm) && ValidDtmIn(i) && (i.valid ==> j.outstanding)
  }

  predicate Requests(s: Dtm) {
    s.engine.ReadReq? || s.engine.WriteReq?
  }

  function NextJtag(j: Jtag, i: DtmIn): Jtag
    requires ValidStep(j, i)
  {
    Jtag(NextDtm(j.dtm, i), if Requests(j.dtm) && i.ready then true else if i.valid then false else j.outstanding)
  }

  predicate LegalScan(j: Jtag, run: seq<DtmIn>)
    decreases |run|
  {
    |run| > 0 ==> ValidStep(j, run[0]) && LegalScan(NextJtag(j, run[0]), run[1..])
  }

  function RunJtag(j: Jtag, run: seq<DtmIn>): Jtag
    requires LegalScan(j, run)
    decreases |run|
  {
    if |run| == 0 then j else RunJtag(NextJtag(j, run[0]), run[1..])
  }

  /** What the data register holds: the data of the last request taken over, or, for a read, the
      response once it is there. */
  datatype Content = Awaiting | Holding(bits: seq<bool>)

  function NextContent(c: Content, s: Dtm, i: DtmIn): Content
    requires ValidDtm(s)
  {
    if Accepts(s) then (if OpRead(s.dr) then Awaiting else Holding(s.dr[2..34]))
    else if s.engine.WaitReadValid? && i.valid then Holding(i.resp)
    else c
  }

  function ContentAfter(c: Content, j: Jtag, run: seq<DtmIn>): Content
    requires LegalScan(j, run)
    decreases |run|
  {
    if |run| == 0 then c else ContentAfter(NextContent(c, j.dtm, run[0]), NextJtag(j, run[0]), run[1..])
  }

  /** At most one request is outstanding, exactly in the two waiting states; the data register is
      as recorded except while a read is under way. */
  predicate Disciplined(j: Jtag, c: Content) {
    && ValidDtm(j.dtm)
    && (j.outstanding <==> j.dtm.engine.WaitReadValid? || j.dtm.engine.WaitWriteValid?)
    && (c.Awaiting? <==> j.dtm.engine.ReadReq? || j.dtm.engine.WaitReadValid?)
    && (c.Holding? ==> j.dtm.data == c.bits)
  }

  lemma DisciplineStep(j: Jtag, c: Content, i: DtmIn)
    requires Disciplined(j, c) && ValidStep(j, i)
    ensures Disciplined(NextJtag(j, i), NextContent(c, j.dtm, i))
    ensures Requests(j.dtm) ==> !j.outstanding
    ensures !Requests(j.dtm) && Requests(NextDtm(j.dtm, i)) ==> j.dtm.error.NoError? && !j.outstanding
  {
    hide NextDr, NextDtmcs, NextIrShift, NextTap, Value;
  }

  lemma {:induction false} StaysDisciplined(j: Jtag, c: Content, run: seq<DtmIn>)
    requires Disciplined(j, c) && LegalScan(j, run)
    ensures Disciplined(RunJtag(j, run), ContentAfter(c, j, run))
    decreases |run|
  {
    hide NextJtag, NextContent, Disciplined, ValidStep;
    if |run| > 0 {
      assert ValidDtm(j.dtm) by { DisciplinedValid(j, c); }
      DisciplineStep(j, c, run[0]);
      StaysDisciplined(NextJtag(j, run[0]), NextContent(c, j.dtm, run[0]), run[1..]);
    }
  }

  lemma DisciplinedValid(j: Jtag, c: Content)
    requires Disciplined(j, c)
    ensures ValidDtm(j.dtm)
  {
  }

  lemma ResetDisciplined()
    ensures Disciplined(Jtag(DTM_RESET, false), Holding(Zeros(32)))
  {
  }

  /** Over every run of the pads and the channel at most one transaction is outstanding: a request is
      only made when none is, and a new one only starts with no error pending. */
  lemma OneOutstanding(run: seq<DtmIn>, i: DtmIn)
    requires LegalScan(Jtag(DTM_RESET, false), run) && ValidStep(RunJtag(Jtag(DTM_RESET, false), run), i)
    ensures var j := RunJtag(Jtag(DTM_RESET, false), run);
      && (Requests(j.dtm) ==> !j.outstanding)
      && (!Requests(j.dtm) && Requests(NextDtm(j.dtm, i)) ==> j.dtm.error.NoError? && !j.outstanding)
  {
    ResetDisciplined();
    hide Disciplined, NextDtm;
    StaysDisciplined(Jtag(DTM_RESET, false), Holding(Zeros(32)), run);
    DisciplineStep(RunJtag(Jtag(DTM_RESET, false), run), ContentAfter(Holding(Zeros(32)), Jtag(DTM_RESET, false), run), i);
  }

  /** Over every run of the pads and the channel: a capture that shows no error shows the record, and
      if the last request was a read that is the response to this very read. */
  lemma CaptureShowsRecord(run: seq<DtmIn>, i: DtmIn)
    requires LegalScan(Jtag(DTM_RESET, false), run) && ValidStep(RunJtag(Jtag(DTM_RESET, false), run), i)
    ensures var j, c := RunJtag(Jtag(DTM_RESET, false), run), ContentAfter(Holding(Zeros(32)), Jtag(DTM_RESET, false), run);
      j.dtm.tap.CaptureDr? && Selects(j.dtm, DMIACCESS) && NextDr(j.dtm, i)[..2] == ErrorBits(NoError)
      ==> c.Holding? && NextDr(j.dtm, i)[2..34] == c.bits
  {
    var j, c := RunJtag(Jtag(DTM_RESET, false), run), ContentAfter(Holding(Zeros(32)), Jtag(DTM_RESET, false), run);
    ResetDisciplined();
    StaysDisciplined(Jtag(DTM_RESET, false), Holding(Zeros(32)), run);
    if j.dtm.tap.CaptureDr? && Selects(j.dtm, DMIACCESS) && NextDr(j.dtm, i)[..2] == ErrorBits(NoError) {
      var e := ErrorBits(if TooFast(j.dtm) then Busy else j.dtm.error);
      assert NextDr(j.dtm, i)[..2] == e;
      assert e[0] == ErrorBits(NoError)[0];
      assert NextDr(j.dtm, i)[2..34] == j.dtm.data;
    }
  }

  /** The error is set exactly by being too fast, whichever register is selected. */
  lemma ErrorRaisedExactly(s: Dtm, i: DtmIn)
    requires ValidDtm(s) && ValidDtmIn(i) && s.error.NoError?
    ensures NextDtm(s, i).error.Busy? <==> TooFast(s) && !ClearsError(s)
  {
  }

  /** No clock of the run clears the error. */
  predicate NeverCleared(j: Jtag, run: seq<DtmIn>)
    requires LegalScan(j, run)
    decreases |run|
  {
    |run| > 0 ==> !ClearsError(j.dtm) && NeverCleared(NextJtag(j, run[0]), run[1..])
  }

  /** Requests that start during a run. */
  function Starts(j: Jtag, run: seq<DtmIn>): nat
    requires LegalScan(j, run)
    decreases |run|
  {
    if |run| == 0 then 0
    else (if !Requests(j.dtm) && Requests(NextJtag(j, run[0]).dtm) then 1 else 0) + Starts(NextJtag(j, run[0]), run[1..])
  }

  /** The error is sticky: until it is cleared no request starts. */
  lemma {:induction false} StickyErrorBlocks(j: Jtag, run: seq<DtmIn>)
    requires LegalScan(j, run) && NeverCleared(j, run) && j.dtm.error.Busy?
    ensures Starts(j, run) == 0 && RunJtag(j, run).dtm.error.Busy?
    decreases |run|
  {
    hide NextDr, NextDtmcs, NextIrShift, NextTap, Value;
    if |run| > 0 {
      StickyErrorBlocks(NextJtag(j, run[0]), run[1..]);
    }
  }

  // ---- Shifting --------------------------------------------------------------------------------------------

  /** The controller is inside a data register scan. */
  predicate InScan(s: TapState) {
    s.ShiftDr? || s.Exit1Dr? || s.PauseDr? || s.Exit2Dr?
  }

  predicate Scanning(j: Jtag, run: seq<DtmIn>)
    requires LegalScan(j, run)
    decreases |run|
  {
    |run| > 0 ==> InScan(j.dtm.tap) && Scanning(NextJtag(j, run[0]), run[1..])
  }

  /** Input bits of the clocks in the shift state. */
  function ShiftedIn(j: Jtag, run: seq<DtmIn>): seq<bool>
    requires LegalScan(j, run)
    decreases |run|
  {
    if |run| == 0 then []
    else (if j.dtm.tap.ShiftDr? then [run[0].tdi] else []) + ShiftedIn(NextJtag(j, run[0]), run[1..])
  }

  /** Output bits of these clocks. */
  function ShiftedOut(j: Jtag, run: seq<DtmIn>): seq<bool>
    requires LegalScan(j, run)
    decreases |run|
  {
    if |run| == 0 then []
    else
      assert ValidStep(j, run[0]);
      (if j.dtm.tap.ShiftDr? then [j.dtm.dr[0]] else []) + ShiftedOut(NextJtag(j, run[0]), run[1..])
  }

  /** However a scan is split by pauses: n clocks in the shift state move the register by exactly n
      bits, first in first out through its 41 places. */
  lemma {:induction false} ScanShifts(j: Jtag, run: seq<DtmIn>)
    requires LegalScan(j, run) && Scanning(j, run) && ValidDtm(j.dtm) && Selects(j.dtm, DMIACCESS)
    ensures j.dtm.dr + ShiftedIn(j, run) == ShiftedOut(j, run) + RunJtag(j, run).dtm.dr
    ensures |ShiftedIn(j, run)| == |ShiftedOut(j, run)| && Selects(RunJtag(j, run).dtm, DMIACCESS)
    decreases |run|
  {
    if |run| == 0 {
      assert j.dtm.dr + [] == [] + j.dtm.dr;
    } else {
      var n, rest := NextJtag(j, run[0]), run[1..];
      ShiftStep(j, run[0]);
      hide NextJtag, ValidStep, ValidDtm;
      ScanShifts(n, rest);
      var ins, outs, end := ShiftedIn(n, rest), ShiftedOut(n, rest), RunJtag(n, rest).dtm.dr;
      if j.dtm.tap.ShiftDr? {
        ShiftBalance(j.dtm.dr, run[0].tdi, j.dtm.dr[0], n.dtm.dr, ins, outs, end);
      } else {
        assert [] + ins == ins && [] + outs == outs;
      }
    }
  }

  lemma ShiftBalance(dr: seq<bool>, b: bool, o: bool, dr': seq<bool>, ins: seq<bool>, outs: seq<bool>, end: seq<bool>)
    requires dr + [b] == [o] + dr' && dr' + ins == outs + end
    ensures dr + ([b] + ins) == ([o] + outs) + end
  {
    assert dr + ([b] + ins) == (dr + [b]) + ins;
    assert ([o] + dr') + ins == [o] + (dr' + ins);
    assert [o] + (outs + end) == ([o] + outs) + end;
  }

  lemma ShiftStep(j: Jtag, i: DtmIn)
    requires ValidStep(j, i) && InScan(j.dtm.tap) && Selects(j.dtm, DMIACCESS)
    ensures var n := NextJtag(j, i);
      && ValidDtm(n.dtm) && Selects(n.dtm, DMIACCESS)
      && (j.dtm.tap.ShiftDr? ==> j.dtm.dr + [i.tdi] == [j.dtm.dr[0]] + n.dtm.dr)
      && (!j.dtm.tap.ShiftDr? ==> n.dtm.dr == j.dtm.dr)
  {
    hide NextDtmcs, NextIrShift, NextTap, NextEngine, NextError, Value;
  }

  /** A scan of 41 bits exchanges the register: out comes what was captured, in stays what was sent. */
  lemma FullScanExchanges(j: Jtag, run: seq<DtmIn>)
    requires LegalScan(j, run) && Scanning(j, run) && ValidDtm(j.dtm) && Selects(j.dtm, DMIACCESS) && |ShiftedIn(j, run)| == 41
    ensures ShiftedOut(j, run) == j.dtm.dr && RunJtag(j, run).dtm.dr == ShiftedIn(j, run)
  {
    ScanShifts(j, run);
    var a, b, c, d := j.dtm.dr, ShiftedIn(j, run), ShiftedOut(j, run), RunJtag(j, run).dtm.dr;
    assert a == (a + b)[..41] && c == (c + d)[..41];
    assert b == (a + b)[41..] && d == (c + d)[41..];
  }

  // ---- What the debugger's bits mean ---------------------------------------------------------------------------

  /** In Update-DR with the access register selected, nothing under way and no error: op code 1 starts
      a read and 2 a write, the others start nothing; address and data are those of the scan. */
  lemma RequestByOp(s: Dtm, i: DtmIn)
    requires ValidDtm(s) && ValidDtmIn(i) && s.tap.UpdateDr? && s.ir == 0x11 && s.engine.Idle? && s.error.NoError?
    ensures var n, op := NextDtm(s, i), Value(s.dr[..2]);
      && n.engine == (if op == 1 then ReadReq else if op == 2 then WriteReq else Idle)
      && n.data == s.dr[2..34] && n.address == s.dr[34..41] && n.error.NoError?
  {
    hide NextDtmcs, NextIrShift, NextTap, NextDr;
    TwoBits(s.dr);
  }

  lemma TwoBits(v: seq<bool>)
    requires |v| >= 2
    ensures Value(v[..2]) == (if v[0] then 1 else 0) + (if v[1] then 2 else 0)
  {
    assert v[..2][1..] == [v[1]] && [v[1]][1..] == [];
    assert Value(v[..2]) == (if v[0] then 1 else 0) + 2 * Value([v[1]]);
  }

  /** A clean pair of status bits reads 0, a busy one 3. */
  lemma StatusNumbers(e: DmiError)
    ensures Value(ErrorBits(e)) == if e.Busy? then 3 else 0
  {
    assert ErrorBits(e)[..2] == ErrorBits(e);
    TwoBits(ErrorBits(e));
  }

  /** The error goes away exactly by a one in bit 16 of dtmcs, updated while register 0x10 is selected. */
  lemma ErrorClearedExactly(s: Dtm, i: DtmIn)
    requires ValidDtm(s) && ValidDtmIn(i) && s.error.Busy?
    ensures NextDtm(s, i).error.NoError? <==> s.tap.UpdateDr? && s.ir == 0x10 && s.dtmcs[16]
  {
    hide NextDtmcs, NextIrShift, NextTap, NextDr, NextEngine;
  }

  /** The instruction register shifts out 5 first; the update selects the number shifted in, and the test
      reset register 1. */
  lemma InstructionRegister(s: Dtm, i: DtmIn)
    requires ValidDtm(s) && ValidDtmIn(i)
    ensures var n := NextDtm(s, i);
      && (s.tap.CaptureIr? ==> Value(n.irShift) == 5)
      && n.ir == if s.tap.TestLogicReset? then 1 else if s.tap.UpdateIr? then Value(s.irShift) else s.ir
  {
    hide NextDtmcs, NextTap, NextDr, NextEngine, Value;
    assert [true, false, true, false, false] == [true] + ([false] + ([true] + Zeros(2)));
    ZerosAreZero(2);
    Lowest(true, Zeros(2));
    Lowest(false, [true] + Zeros(2));
    Lowest(true, [false] + ([true] + Zeros(2)));
  }

  lemma Lowest(b: bool, rest: seq<bool>)
    ensures Value([b] + rest) == (if b then 1 else 0) + 2 * Value(rest)
  {
    assert ([b] + rest)[1..] == rest;
  }

  /** dtmcs reads version 1 in bits 3 to 0, seven address bits in 9 to 4, the status in 11 and 10, one
      idle cycle in 14 to 12, and zeros above. */
  lemma StatusWord(e: DmiError)
    ensures var v := DtmcsValue(e);
      && Value(v[..4]) == 1 && Value(v[4..10]) == 7 && Value(v[10..12]) == (if e.Busy? then 3 else 0)
      && Value(v[12..15]) == 1 && forall k :: 15 <= k < 32 ==> !v[k]
  {
    var v := DtmcsValue(e);
    assert v[..4] == [true] + Zeros(3) && v[10..12] == ErrorBits(e) && v[12..15] == [true] + Zeros(2);
    assert v[4..10] == [true] + ([true] + ([true] + Zeros(3)));
    hide Value, DtmcsValue, ErrorBits;
    ZerosAreZero(2);
    ZerosAreZero(3);
    Lowest(true, Zeros(2));
    Lowest(true, Zeros(3));
    Lowest(true, [true] + Zeros(3));
    Lowest(true, [true] + ([true] + Zeros(3)));
    StatusNumbers(e);
  }

  lemma {:induction false} ZerosAreZero(n: nat)
    ensures Value(Zeros(n)) == 0
    decreases n
  {
    if n > 0 {
      assert Zeros(n)[1..] == Zeros(n - 1);
      ZerosAreZero(n - 1);
    }
  }

  // ---- The controller's paths ------------------------------------------------------------------------------------

  function Lows(n: nat): seq<bool> {
    seq(n, _ => false)
  }

  lemma {:induction false} Waits(s: TapState, n: nat)
    requires s.RunTestIdle? || s.ShiftDr? || s.ShiftIr? || s.PauseDr? || s.PauseIr?
    ensures Walk(s, Lows(n)) == s
    decreases n
  {
    if n > 0 {
      assert Lows(n)[1..] == Lows(n - 1);
      Waits(s, n - 1);
    }
  }

  lemma {:induction false} WalkConcat(s: TapState, a: seq<bool>, b: seq<bool>)
    ensures Walk(s, a + b) == Walk(Walk(s, a), b)
    decreases |a|
  {
    if |a| == 0 {
      assert a + b == b;
    } else {
      assert (a + b)[0] == a[0] && (a + b)[1..] == a[1..] + b;
      WalkConcat(NextTap(s, a[0]), a[1..], b);
    }
  }

  lemma Walk1(s: TapState, a: bool)
    ensures Walk(s, [a]) == NextTap(s, a)
  {
    assert [a][1..] == [];
  }

  lemma Walk2(s: TapState, a: bool, b: bool)
    ensures Walk(s, [a, b]) == NextTap(NextTap(s, a), b)
  {
    assert [a, b][1..] == [b];
    Walk1(NextTap(s, a), b);
  }

  lemma Walk3(s: TapState, a: bool, b: bool, c: bool)
    ensures Walk(s, [a, b, c]) == NextTap(NextTap(NextTap(s, a), b), c)
  {
    assert [a, b, c][1..] == [b, c];
    Walk2(NextTap(s, a), b, c);
  }

  /** A data scan from Run-Test/Idle: 1 0 0 to the shift state, any number of clocks there, 1 to leave it,
      then 1 1 ... or a pause of any length after which shifting goes on or ends; 0 after the update
      leads back. An instruction scan is the same behind one more 1. */
  lemma ScanPaths(shifts: nat, pause: nat)
    ensures Walk(RunTestIdle, [true, false, false]) == ShiftDr && Walk(RunTestIdle, [true, true] + [false, false]) == ShiftIr
    ensures Walk(ShiftDr, Lows(shifts) + [true]) == Exit1Dr && Walk(ShiftIr, Lows(shifts) + [true]) == Exit1Ir
    ensures Walk(Exit1Dr, [false] + Lows(pause)) == PauseDr && Walk(Exit1Ir, [false] + Lows(pause)) == PauseIr
    ensures Walk(PauseDr, [true, false]) == ShiftDr && Walk(PauseIr, [true, false]) == ShiftIr
    ensures Walk(PauseDr, [true, true]) == UpdateDr && Walk(PauseIr, [true, true]) == UpdateIr
    ensures Walk(Exit1Dr, [true]) == UpdateDr && Walk(Exit1Ir, [true]) == UpdateIr
    ensures Walk(UpdateDr, [false]) == RunTestIdle && Walk(UpdateIr, [false]) == RunTestIdle
    ensures Walk(TestLogicReset, [false]) == RunTestIdle && Walk(RunTestIdle, Lows(pause)) == RunTestIdle
    ensures Walk(UpdateDr, [true]) == SelectDrScan && Walk(UpdateIr, [true]) == SelectDrScan
    ensures Walk(CaptureDr, [true]) == Exit1Dr && Walk(CaptureIr, [true]) == Exit1Ir
  {
    hide Walk, NextTap, Lows;
    ScanEntries();
    LeaveShift(ShiftDr, shifts);
    LeaveShift(ShiftIr, shifts);
    EnterPause(Exit1Dr, pause);
    EnterPause(Exit1Ir, pause);
    PauseExits();
    SingleSteps();
    Waits(RunTestIdle, pause);
  }

  lemma ScanEntries()
    ensures Walk(RunTestIdle, [true, false, false]) == ShiftDr && Walk(RunTestIdle, [true, true] + [false, false]) == ShiftIr
  {
    hide Walk;
    Walk3(RunTestIdle, true, false, false);
    Walk2(RunTestIdle, true, true);
    Walk2(SelectIrScan, false, false);
    WalkConcat(RunTestIdle, [true, true], [false, false]);
  }

  lemma PauseExits()
    ensures Walk(PauseDr, [true, false]) == ShiftDr && Walk(PauseIr, [true, false]) == ShiftIr
    ensures Walk(PauseDr, [true, true]) == UpdateDr && Walk(PauseIr, [true, true]) == UpdateIr
  {
    hide Walk;
    Walk2(PauseDr, true, false);
    Walk2(PauseIr, true, false);
    Walk2(PauseDr, true, true);
    Walk2(PauseIr, true, true);
  }

  lemma SingleSteps()
    ensures Walk(Exit1Dr, [true]) == UpdateDr && Walk(Exit1Ir, [true]) == UpdateIr
    ensures Walk(UpdateDr, [false]) == RunTestIdle && Walk(UpdateIr, [false]) == RunTestIdle
    ensures Walk(TestLogicReset, [false]) == RunTestIdle
    ensures Walk(UpdateDr, [true]) == SelectDrScan && Walk(UpdateIr, [true]) == SelectDrScan
    ensures Walk(CaptureDr, [true]) == Exit1Dr && Walk(CaptureIr, [true]) == Exit1Ir
  {
    hide Walk;
    Walk1(Exit1Dr, true);
    Walk1(Exit1Ir, true);
    Walk1(UpdateDr, false);
    Walk1(UpdateIr, false);
    Walk1(TestLogicReset, false);
    Walk1(UpdateDr, true);
    Walk1(UpdateIr, true);
    Walk1(CaptureDr, true);
    Walk1(CaptureIr, true);
  }

  lemma LeaveShift(s: TapState, n: nat)
    requires s.ShiftDr? || s.ShiftIr?
    ensures Walk(s, Lows(n) + [true]) == if s.ShiftDr? then Exit1Dr else Exit1Ir
  {
    Waits(s, n);
    WalkConcat(s, Lows(n), [true]);
    Walk1(s, true);
  }

  lemma EnterPause(s: TapState, n: nat)
    requires s.Exit1Dr? || s.Exit1Ir?
    ensures Walk(s, [false] + Lows(n)) == if s.Exit1Dr? then PauseDr else PauseIr
  {
    Walk1(s, false);
    WalkConcat(s, [false], Lows(n));
    Waits(if s.Exit1Dr? then PauseDr else PauseIr, n);
  }
}
