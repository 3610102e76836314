/** Transactions over JTAG, from the bits on the pads to the request on the channel and back. */
module JtagScans {
  import opened Words
  import opened Serdes
  import opened JtagTransport

  // ---- Requests and answers ------------------------------------------------------------------------

  /** A request as it is handed to the channel. */
  datatype Asked = Asked(write: bool, address: seq<bool>, data: seq<bool>)

  function Handed(j: Jtag, run: seq<DtmIn>): seq<Asked>
    requires LegalScan(j, run)
    decreases |run|
  {
    if |run| == 0 then []
    else
      (if Requests(j.dtm) && run[0].ready then [Asked(j.dtm.engine.WriteReq?, j.dtm.address, j.dtm.data)] else [])
      + Handed(NextJtag(j, run[0]), run[1..])
  }

  /** Read responses that arrive. */
  function Answers(j: Jtag, run: seq<DtmIn>): seq<seq<bool>>
    requires LegalScan(j, run)
    decreases |run|
  {
    if |run| == 0 then []
    else
      (if j.dtm.engine.WaitReadValid? && run[0].valid then [run[0].resp] else []) + Answers(NextJtag(j, run[0]), run[1..])
  }

  // ---- Runs that leave the access alone ---------------------------------------------------------------

  /** Neither an update nor a reset of the controller. */
  predicate Quiet(j: Jtag, run: seq<DtmIn>)
    requires LegalScan(j, run)
    decreases |run|
  {
    |run| > 0 ==>
      !j.dtm.tap.UpdateDr? && !j.dtm.tap.UpdateIr? && !j.dtm.tap.TestLogicReset? && Quiet(NextJtag(j, run[0]), run[1..])
  }

  /** Nor a capture. */
  predicate Undisturbed(j: Jtag, run: seq<DtmIn>)
    requires LegalScan(j, run)
    decreases |run|
  {
    |run| > 0 ==>
      !j.dtm.tap.UpdateDr? && !j.dtm.tap.UpdateIr? && !j.dtm.tap.TestLogicReset? && !j.dtm.tap.CaptureDr?
      && Undisturbed(NextJtag(j, run[0]), run[1..])
  }

  /** The access register is selected, and nothing is under way. */
  predicate Ready(j: Jtag) {
    ValidDtm(j.dtm) && j.dtm.ir == 0x11 && j.dtm.engine.Idle? && j.dtm.error.NoError?
  }

  lemma {:induction false} StaysReady(j: Jtag, run: seq<DtmIn>)
    requires LegalScan(j, run) && Quiet(j, run) && Ready(j)
    ensures Ready(RunJtag(j, run))
    decreases |run|
  {
    if |run| > 0 {
      ReadyStep(j, run[0]);
      hide NextJtag, ValidStep, Ready;
      StaysReady(NextJtag(j, run[0]), run[1..]);
    }
  }

  lemma ReadyStep(j: Jtag, i: DtmIn)
    requires ValidStep(j, i) && Ready(j) && !j.dtm.tap.UpdateDr? && !j.dtm.tap.UpdateIr? && !j.dtm.tap.TestLogicReset?
    ensures Ready(NextJtag(j, i))
  {
    hide NextDr, NextDtmcs, NextIrShift, NextTap, Value;
  }

  /** A scan moves no update either. */
  lemma {:induction false} ScanIsQuiet(j: Jtag, run: seq<DtmIn>)
    requires LegalScan(j, run) && Scanning(j, run)
    ensures Quiet(j, run)
    decreases |run|
  {
    hide NextJtag, ValidStep;
    if |run| > 0 { ScanIsQuiet(NextJtag(j, run[0]), run[1..]); }
  }

  // ---- The access in progress ----------------------------------------------------------------------------

  /** The request with this op code, address and data, what has been handed over of it, and what has
      been answered. */
  predicate Progress(j: Jtag, op: nat, a: seq<bool>, d: seq<bool>, asked: seq<Asked>, answers: seq<seq<bool>>) {
    && ValidDtm(j.dtm) && j.dtm.ir == 0x11 && j.dtm.error.NoError? && j.dtm.address == a
    && (if |answers| == 0 then j.dtm.data == d else j.dtm.data == answers[0])
    && match j.dtm.engine
       case ReadReq => op == 1 && asked == [] && answers == []
       case WaitReadValid => op == 1 && asked == [Asked(false, a, d)] && answers == []
       case WriteReq => op == 2 && asked == [] && answers == []
       case WaitWriteValid => op == 2 && asked == [Asked(true, a, d)] && answers == []
       case Idle =>
         if op == 1 then asked == [Asked(false, a, d)] && |answers| == 1
         else answers == [] && asked == if op == 2 then [Asked(true, a, d)] else []
  }

  lemma ProgressStep(j: Jtag, i: DtmIn, op: nat, a: seq<bool>, d: seq<bool>, asked: seq<Asked>, answers: seq<seq<bool>>)
    requires ValidStep(j, i) && Progress(j, op, a, d, asked, answers)
    requires !j.dtm.tap.UpdateDr? && !j.dtm.tap.UpdateIr? && !j.dtm.tap.TestLogicReset? && !j.dtm.tap.CaptureDr?
    ensures Progress(NextJtag(j, i), op, a, d,
      asked + (if Requests(j.dtm) && i.ready then [Asked(j.dtm.engine.WriteReq?, j.dtm.address, j.dtm.data)] else []),
      answers + (if j.dtm.engine.WaitReadValid? && i.valid then [i.resp] else []))
  {
    hide NextDr, NextDtmcs, NextIrShift, NextTap, Value;
    assert asked + [] == asked && answers + [] == answers;
  }

  lemma {:induction false} ProgressRun(j: Jtag, run: seq<DtmIn>, op: nat, a: seq<bool>, d: seq<bool>, asked: seq<Asked>, answers: seq<seq<bool>>)
    requires LegalScan(j, run) && Undisturbed(j, run) && Progress(j, op, a, d, asked, answers)
    ensures Progress(RunJtag(j, run), op, a, d, asked + Handed(j, run), answers + Answers(j, run))
    decreases |run|
  {
    hide Progress, NextJtag, ValidStep;
    if |run| == 0 {
      assert asked + [] == asked && answers + [] == answers;
    } else {
      var h := if Requests(j.dtm) && run[0].ready then [Asked(j.dtm.engine.WriteReq?, j.dtm.address, j.dtm.data)] else [];
      var r := if j.dtm.engine.WaitReadValid? && run[0].valid then [run[0].resp] else [];
      ProgressStep(j, run[0], op, a, d, asked, answers);
      ProgressRun(NextJtag(j, run[0]), run[1..], op, a, d, asked + h, answers + r);
      Associates(asked, h, Handed(NextJtag(j, run[0]), run[1..]));
      Associates(answers, r, Answers(NextJtag(j, run[0]), run[1..]));
    }
  }

  // ---- One transaction -------------------------------------------------------------------------------------

  /** The bits of a request, in the order in which they are shifted in: op, data, address. */
  function RequestBits(op: nat, a: nat, d: nat): (w: seq<bool>)
    ensures |w| == 41
  {
    BitsOf(op, 2) + BitsOf(d, 32) + BitsOf(a, 7)
  }

  /** A scan of 41 bits from the shift state, with or without pauses, that may be left for the update. */
  predicate Scan(j: Jtag, body: seq<DtmIn>, word: seq<bool>) {
    LegalScan(j, body) && Scanning(j, body) && ShiftedIn(j, body) == word
    && (RunJtag(j, body).dtm.tap.Exit1Dr? || RunJtag(j, body).dtm.tap.Exit2Dr?)
  }

  /** Out of the scan and through the update. */
  predicate Updates(j: Jtag, up: DtmIn, end: DtmIn) {
    up.tms && ValidStep(j, up) && ValidStep(NextJtag(j, up), end)
  }

  lemma ScanThenUpdate(j: Jtag, body: seq<DtmIn>, up: DtmIn, end: DtmIn, op: nat, a: nat, d: nat)
    requires Ready(j) && Scan(j, body, RequestBits(op, a, d)) && op < 4
    requires Updates(RunJtag(j, body), up, end)
    ensures var j1 := NextJtag(RunJtag(j, body), up); var j2 := NextJtag(j1, end);
      j1.dtm.tap.UpdateDr? && Progress(j2, op, BitsOf(a, 7), BitsOf(d, 32), [], [])
  {
    hide NextJtag, BitsOf, Value, RequestBits, Ready, ValidStep, ValidDtm, Progress, RunJtag, ShiftedIn, ShiftedOut, Scanning, LegalScan;
    ReadyParts(j);
    ScanIsQuiet(j, body);
    StaysReady(j, body);
    FullScanExchanges(j, body);
    LeaveScan(RunJtag(j, body), up, RequestBits(op, a, d));
    RequestTaken(NextJtag(RunJtag(j, body), up), end, op, a, d);
  }

  lemma ReadyParts(j: Jtag)
    requires Ready(j)
    ensures ValidDtm(j.dtm) && Selects(j.dtm, DMIACCESS)
  {
  }

  lemma RequestTaken(j: Jtag, end: DtmIn, op: nat, a: nat, d: nat)
    requires Ready(j) && ValidStep(j, end) && j.dtm.tap.UpdateDr? && j.dtm.dr == RequestBits(op, a, d) && op < 4
    ensures Progress(NextJtag(j, end), op, BitsOf(a, 7), BitsOf(d, 32), [], [])
  {
    hide BitsOf, Value, RequestBits, NextDr, NextDtmcs, NextIrShift, NextTap, NextEngine;
    RequestByOp(j.dtm, end);
    BitsOfRequest(op, a, d);
  }

  lemma LeaveScan(j: Jtag, up: DtmIn, word: seq<bool>)
    requires Ready(j) && ValidStep(j, up) && up.tms && (j.dtm.tap.Exit1Dr? || j.dtm.tap.Exit2Dr?) && j.dtm.dr == word
    ensures var n := NextJtag(j, up); Ready(n) && n.dtm.tap.UpdateDr? && n.dtm.dr == word
  {
    hide NextDtmcs, NextIrShift, Value;
  }

  lemma BitsOfRequest(op: nat, a: nat, d: nat)
    requires op < 4
    ensures var w := RequestBits(op, a, d);
      Value(w[..2]) == op && w[2..34] == BitsOf(d, 32) && w[34..41] == BitsOf(a, 7)
  {
    assert RequestBits(op, a, d)[..2] == BitsOf(op, 2);
    assert Pow2(2) == 4;
    ValueOfBits(op, 2);
  }

  /** A capture after an undisturbed wait. */
  lemma Captured(j: Jtag, i: DtmIn, op: nat, a: seq<bool>, d: seq<bool>, asked: seq<Asked>, answers: seq<seq<bool>>)
    requires ValidStep(j, i) && Progress(j, op, a, d, asked, answers) && j.dtm.tap.CaptureDr?
    ensures var n := NextJtag(j, i).dtm;
      && ValidDtm(n) && n.ir == 0x11 && InScan(n.tap) && |n.dr| == 41
      && Value(n.dr[..2]) == (if op == 1 && answers == [] then 3 else 0)
      && n.dr[2..34] == (if answers == [] then d else answers[0]) && n.dr[34..41] == a
  {
    var e := if TooFast(j.dtm) then Busy else j.dtm.error;
    StatusNumbers(e);
    assert NextDr(j.dtm, i)[..2] == ErrorBits(e);
    hide NextDtmcs, NextIrShift, Value, ErrorBits;
  }

  /** A transaction from the pads and back. A scan shifts in a request, the update hands it over, and
      after any wait a second scan shifts out what the capture found. Op code 1 asks the channel for one
      read of that address, op code 2 for one write of that data to it, and 0 and 3 for nothing. The
      status shifted out is 3 exactly for a read that has not been answered yet, else 0; then the
      data are the answer to this read, and the address is the one that was asked. */
  lemma Transacts(j: Jtag, body: seq<DtmIn>, up: DtmIn, end: DtmIn, wait: seq<DtmIn>, capture: DtmIn, body2: seq<DtmIn>,
                  op: nat, a: nat, d: nat)
    requires Ready(j) && Scan(j, body, RequestBits(op, a, d)) && op < 4
    requires Updates(RunJtag(j, body), up, end)
    requires var j2 := NextJtag(NextJtag(RunJtag(j, body), up), end);
      && LegalScan(j2, wait) && Undisturbed(j2, wait) && RunJtag(j2, wait).dtm.tap.CaptureDr?
      && ValidStep(RunJtag(j2, wait), capture)
      && var j3 := NextJtag(RunJtag(j2, wait), capture);
         LegalScan(j3, body2) && Scanning(j3, body2) && |ShiftedIn(j3, body2)| == 41
    ensures var j2 := NextJtag(NextJtag(RunJtag(j, body), up), end);
      var out := ShiftedOut(NextJtag(RunJtag(j2, wait), capture), body2);
      var asked, answers := Handed(j2, wait), Answers(j2, wait);
      && |out| == 41 && |answers| <= 1
      && (asked == [] || asked == [Asked(op == 2, BitsOf(a, 7), BitsOf(d, 32))]) && (op == 0 || op == 3 ==> asked == [])
      && (answers != [] ==> op == 1 && asked != [])
      && Value(out[..2]) == (if op == 1 && answers == [] then 3 else 0)
      && out[2..34] == (if answers == [] then BitsOf(d, 32) else answers[0]) && out[34..41] == BitsOf(a, 7)
  {
    hide NextJtag, BitsOf, Value, RequestBits, Ready, ValidStep, Progress, RunJtag, ShiftedIn, ShiftedOut, Scanning, LegalScan,
      Undisturbed, Handed, Answers;
    ScanThenUpdate(j, body, up, end, op, a, d);
    var j2 := NextJtag(NextJtag(RunJtag(j, body), up), end);
    ProgressRun(j2, wait, op, BitsOf(a, 7), BitsOf(d, 32), [], []);
    assert [] + Handed(j2, wait) == Handed(j2, wait) && [] + Answers(j2, wait) == Answers(j2, wait);
    var j3 := RunJtag(j2, wait);
    Captured(j3, capture, op, BitsOf(a, 7), BitsOf(d, 32), Handed(j2, wait), Answers(j2, wait));
    ProgressCounts(j3, op, BitsOf(a, 7), BitsOf(d, 32), Handed(j2, wait), Answers(j2, wait));
    FullScanExchanges(NextJtag(j3, capture), body2);
  }

  lemma ProgressCounts(j: Jtag, op: nat, a: seq<bool>, d: seq<bool>, asked: seq<Asked>, answers: seq<seq<bool>>)
    requires Progress(j, op, a, d, asked, answers)
    ensures |answers| <= 1 && (asked == [] || asked == [Asked(op == 2, a, d)]) && (op == 0 || op == 3 ==> asked == [])
    ensures answers != [] ==> op == 1 && asked != []
  {
  }

  // ---- The plain waveforms -----------------------------------------------------------------------------------

  predicate LastHigh(run: seq<DtmIn>) {
    forall k :: 0 <= k < |run| ==> (run[k].tms <==> k == |run| - 1)
  }

  function Pads(run: seq<DtmIn>): (w: seq<bool>)
    ensures |w| == |run|
  {
    seq(|run|, k requires 0 <= k < |run| => run[k].tdi)
  }

  /** TMS low in the shift state, and high with the last bit: a scan of the bits on the pad. */
  lemma {:induction false} PlainScan(j: Jtag, body: seq<DtmIn>)
    requires LegalScan(j, body) && LastHigh(body) && |body| > 0 && j.dtm.tap.ShiftDr?
    ensures Scan(j, body, Pads(body))
    decreases |body|
  {
    var n, rest := NextJtag(j, body[0]), body[1..];
    hide ValidStep;
    FirstClock(j, body);
    assert Pads(body) == [body[0].tdi] + Pads(rest);
    if |body| > 1 {
      assert rest[0] == body[1];
      PlainScan(n, rest);
    } else {
      assert rest == [];
      NothingLeft(n);
      assert Pads(body) == [body[0].tdi] + [];
    }
  }

  lemma NothingLeft(j: Jtag)
    ensures LegalScan(j, []) && RunJtag(j, []) == j && Scanning(j, []) && ShiftedIn(j, []) == []
  {
  }

  lemma FirstClock(j: Jtag, body: seq<DtmIn>)
    requires LegalScan(j, body) && LastHigh(body) && |body| > 0 && (j.dtm.tap.ShiftDr? || j.dtm.tap.ShiftIr?)
    ensures LegalScan(NextJtag(j, body[0]), body[1..]) && LastHigh(body[1..])
    ensures NextJtag(j, body[0]).dtm.tap
         == if |body| > 1 then j.dtm.tap else if j.dtm.tap.ShiftDr? then Exit1Dr else Exit1Ir
  {
    hide NextDr, NextDtmcs, NextIrShift, Value, NextEngine;
    forall k | 0 <= k < |body| - 1 ensures body[1..][k].tms <==> k == |body| - 2 {
      assert body[1..][k] == body[k + 1];
    }
  }

  /** Any number of idle clocks, then TMS high and low: an undisturbed wait up to the capture. */
  lemma {:induction false} PlainWait(j: Jtag, wait: seq<DtmIn>)
    requires LegalScan(j, wait) && |wait| >= 2 && j.dtm.tap.RunTestIdle?
    requires forall k :: 0 <= k < |wait| ==> (wait[k].tms <==> k == |wait| - 2)
    ensures Undisturbed(j, wait) && RunJtag(j, wait).dtm.tap.CaptureDr?
    decreases |wait|
  {
    var n, rest := NextJtag(j, wait[0]), wait[1..];
    hide NextDr, NextDtmcs, NextIrShift, Value, NextEngine, ValidStep;
    TapMoves(j, wait[0]);
    if |wait| > 2 {
      forall k | 0 <= k < |rest| ensures rest[k].tms <==> k == |rest| - 2 { assert rest[k] == wait[k + 1]; }
      PlainWait(n, rest);
    } else {
      TapMoves(n, rest[0]);
      assert rest[1..] == [];
      assert RunJtag(n, rest) == RunJtag(NextJtag(n, rest[0]), []);
      assert Undisturbed(NextJtag(n, rest[0]), []);
    }
  }

  lemma TapMoves(j: Jtag, i: DtmIn)
    requires ValidStep(j, i)
    ensures NextJtag(j, i).dtm.tap == NextTap(j.dtm.tap, i.tms)
  {
    hide NextDr, NextDtmcs, NextIrShift, Value, NextEngine;
  }

  // ---- Selecting a register -----------------------------------------------------------------------------------

  lemma {:induction false} InstructionShifts(j: Jtag, run: seq<DtmIn>)
    requires LegalScan(j, run) && LastHigh(run) && |run| > 0 && j.dtm.tap.ShiftIr? && ValidDtm(j.dtm)
    ensures var f := RunJtag(j, run).dtm;
      f.tap.Exit1Ir? && ValidDtm(f) && f.irShift == (j.dtm.irShift + Pads(run))[|run|..]
    decreases |run|
  {
    var n, rest := NextJtag(j, run[0]), run[1..];
    FirstClock(j, run);
    IrStep(j, run[0]);
    assert Pads(run) == [run[0].tdi] + Pads(rest);
    hide NextJtag, ValidStep, ValidDtm;
    if |run| > 1 {
      InstructionShifts(n, rest);
      assert n.dtm.irShift + Pads(rest) == (j.dtm.irShift + Pads(run))[1..];
      assert (j.dtm.irShift + Pads(run))[1..][|rest|..] == (j.dtm.irShift + Pads(run))[|run|..];
    } else {
      assert rest == [] && Pads(rest) == [];
    }
  }

  lemma IrStep(j: Jtag, i: DtmIn)
    requires ValidStep(j, i) && j.dtm.tap.ShiftIr?
    ensures var n := NextJtag(j, i).dtm; ValidDtm(n) && n.irShift == j.dtm.irShift[1..] + [i.tdi]
  {
    hide NextDr, NextDtmcs, Value, NextEngine, NextTap;
  }

  /** Five bits into the instruction register, then the update: the register with that number is
      selected. */
  lemma Selected(j: Jtag, run: seq<DtmIn>, up: DtmIn, end: DtmIn, number: nat)
    requires ValidDtm(j.dtm) && j.dtm.tap.ShiftIr? && LegalScan(j, run) && |run| == 5 && LastHigh(run)
    requires number < 32 && Pads(run) == BitsOf(number, 5) && Updates(RunJtag(j, run), up, end) && !end.tms
    ensures var f := NextJtag(NextJtag(RunJtag(j, run), up), end).dtm; f.ir == number && f.tap.RunTestIdle?
  {
    InstructionShifts(j, run);
    var k := RunJtag(j, run);
    assert (j.dtm.irShift + Pads(run))[5..] == Pads(run);
    assert k.dtm.irShift == BitsOf(number, 5);
    hide NextDr, NextDtmcs, NextEngine, BitsOf, Value;
    FiveBits(number);
  }

  lemma FiveBits(number: nat)
    requires number < 32
    ensures Value(BitsOf(number, 5)) == number
  {
    assert Pow2(5) == 32;
    ValueOfBits(number, 5);
  }

  // ---- Status and clearing the error --------------------------------------------------------------------------

  lemma StatusStep(j: Jtag, i: DtmIn)
    requires ValidStep(j, i) && j.dtm.tap.ShiftDr? && j.dtm.ir == 0x10
    ensures var n := NextJtag(j, i).dtm;
      ValidDtm(n) && n.ir == 0x10 && n.error == j.dtm.error && n.dtmcs == j.dtm.dtmcs[1..] + [i.tdi]
  {
    hide NextDr, NextIrShift, Value, NextEngine, NextTap;
  }

  lemma {:induction false} StatusShifts(j: Jtag, run: seq<DtmIn>)
    requires LegalScan(j, run) && LastHigh(run) && |run| > 0 && j.dtm.tap.ShiftDr? && ValidDtm(j.dtm) && j.dtm.ir == 0x10
    ensures var f := RunJtag(j, run).dtm;
      && f.tap.Exit1Dr? && ValidDtm(f) && f.ir == 0x10 && f.error == j.dtm.error
      && f.dtmcs == (j.dtm.dtmcs + Pads(run))[|run|..]
    decreases |run|
  {
    hide NextJtag, ValidStep, ValidDtm;
    var n, rest := NextJtag(j, run[0]), run[1..];
    FirstClock(j, run);
    StatusStep(j, run[0]);
    StatusWidth(j);
    assert Pads(run) == [run[0].tdi] + Pads(rest);
    if |run| > 1 {
      StatusShifts(n, rest);
      assert n.dtm.dtmcs + Pads(rest) == (j.dtm.dtmcs + Pads(run))[1..];
      assert (j.dtm.dtmcs + Pads(run))[1..][|rest|..] == (j.dtm.dtmcs + Pads(run))[|run|..];
    } else {
      assert rest == [] && Pads(rest) == [];
      NothingLeft(n);
    }
  }

  lemma StatusWidth(j: Jtag)
    requires ValidDtm(j.dtm)
    ensures |j.dtm.dtmcs| == 32
  {
  }

  /** The capture of register 0x10 shows the status word with the error of the moment. */
  lemma StatusCaptured(j: Jtag, i: DtmIn)
    requires ValidStep(j, i) && j.dtm.tap.CaptureDr? && j.dtm.ir == 0x10
    ensures NextJtag(j, i).dtm.dtmcs == DtmcsValue(j.dtm.error) && NextJtag(j, i).dtm.ir == 0x10
  {
    hide NextDr, NextIrShift, Value, NextEngine, NextTap, DtmcsValue;
  }

  /** 32 bits scanned into register 0x10, then the update: a pending error is gone exactly if bit 16
      was one. */
  lemma ErrorScanned(j: Jtag, run: seq<DtmIn>, up: DtmIn, end: DtmIn)
    requires LegalScan(j, run) && |run| == 32 && LastHigh(run) && j.dtm.tap.ShiftDr? && ValidDtm(j.dtm) && j.dtm.ir == 0x10
    requires j.dtm.error.Busy? && Updates(RunJtag(j, run), up, end)
    ensures NextJtag(NextJtag(RunJtag(j, run), up), end).dtm.error.NoError? <==> run[16].tdi
  {
    hide RunJtag, LegalScan, ValidStep;
    StatusShifts(j, run);
    StatusWidth(j);
    assert (j.dtm.dtmcs + Pads(run))[32..] == Pads(run);
    LeaveStatus(RunJtag(j, run), up);
    StepValid(NextJtag(RunJtag(j, run), up), end);
    ErrorClearedExactly(NextJtag(RunJtag(j, run), up).dtm, end);
  }

  lemma StepValid(j: Jtag, i: DtmIn)
    requires ValidStep(j, i)
    ensures ValidDtm(j.dtm) && ValidDtmIn(i)
  {
  }

  lemma LeaveStatus(j: Jtag, up: DtmIn)
    requires ValidStep(j, up) && up.tms && j.dtm.tap.Exit1Dr? && j.dtm.ir == 0x10 && j.dtm.error.Busy?
    ensures var n := NextJtag(j, up).dtm;
      n.tap.UpdateDr? && n.ir == 0x10 && n.error.Busy? && ValidDtm(n) && n.dtmcs == j.dtm.dtmcs
  {
    hide NextDr, NextIrShift, Value, NextEngine;
  }
}
