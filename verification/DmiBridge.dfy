/** The bridge from the serial port's register interface to the debug module's request and
    response channels, together with the module's response queue. */
module DmiBridge {
  import opened Words
  import opened RingBuffer

  datatype Op = OpNop | OpRead | OpWrite | OpReserved

  /** A register transaction of the debug module interface. */
  datatype Transaction = Transaction(addr: nat, data: Word, op: Op)

  /** `readyO` answers the port, `reqValid` and `respReady` go to the debug module. */
  datatype Bridge = Bridge(
    readyO: bool, reqValid: bool, respReady: bool, doRead: bool, doRequest: bool, doEnd: bool,
    request: Transaction, resp: Word)

  /** One cycle: the port's write strobe and data, the module's readiness, its response. */
  datatype BridgeIn = BridgeIn(valid: bool, offered: Transaction, reqReady: bool, respValid: bool, resp: Word)

  const BRIDGE_RESET := Bridge(false, false, false, false, false, false, Transaction(0, 0, OpNop), 0)

  predicate IsRequest(t: Transaction) {
    t.op.OpRead? || t.op.OpWrite?
  }

  /** The port's data is taken over in this cycle. */
  predicate Takes(b: Bridge, i: BridgeIn) {
    !b.doRequest && !b.doEnd && i.valid && IsRequest(i.offered)
  }

  function NextBridge(b: Bridge, i: BridgeIn): Bridge {
    if b.doRequest then
      b.(readyO := false, reqValid := true, respReady := false, doRequest := !i.reqReady, doEnd := b.doEnd || i.reqReady)
    else if b.doEnd then
      var ends := b.respReady;
      var captures := ends && b.doRead && i.respValid;
      b.(readyO := false, reqValid := false, respReady := true, doEnd := !ends,
         doRead := b.doRead && !captures, resp := if captures then i.resp else b.resp)
    else
      b.(readyO := i.valid, reqValid := false, respReady := false,
         doRequest := Takes(b, i), doRead := b.doRead || (Takes(b, i) && i.offered.op.OpRead?),
         request := if Takes(b, i) then i.offered else b.request)
  }

  /** The port may read the last response. */
  predicate AnswersRead(b: Bridge, readReady: bool) {
    !b.doRead && !b.doRequest && readReady
  }

  class DmiUart {
    var readyO: bool
    var reqValid: bool
    var respReady: bool
    var doRead: bool
    var doRequest: bool
    var doEnd: bool
    var request: Transaction
    var resp: Word

    function State(): Bridge
      reads this
    {
      Bridge(readyO, reqValid, respReady, doRead, doRequest, doEnd, request, resp)
    }

    constructor ()
      ensures State() == BRIDGE_RESET
    {
      readyO, reqValid, respReady, doRead, doRequest, doEnd := false, false, false, false, false, false;
      request, resp := Transaction(0, 0, OpNop), 0;
    }

    /** One rising clock edge. */
    method Tick(i: BridgeIn)
      modifies this
      ensures State() == NextBridge(old(State()), i)
    {
      var answered := respReady;
      readyO, reqValid, respReady := false, false, false;
      if doRequest {
        reqValid := true;
        if i.reqReady { doRequest, doEnd := false, true; }
      } else if doEnd {
        respReady := true;
        if answered {
          doEnd := false;
          if doRead && i.respValid { doRead, resp := false, i.resp; }
        }
      } else if i.valid {
        readyO := true;
        match i.offered.op {
          case OpRead => doRequest, doRead, request := true, true, i.offered;
          case OpWrite => doRequest, request := true, i.offered;
          case OpNop =>
          case OpReserved =>
        }
      }
    }
  }

  // ---- With the response queue -----------------------------------------------------------------------

  /** The bridge and the two-place response queue of the debug module. */
  datatype Link = Link(bridge: Bridge, queue: seq<Word>)

  /** One cycle: the port's side, and what the debug module answers if it accepts a request. */
  datatype LinkIn = LinkIn(valid: bool, offered: Transaction, answer: Word)

  const LINK_RESET := Link(BRIDGE_RESET, [])

  function BridgeInput(l: Link, i: LinkIn): BridgeIn {
    BridgeIn(i.valid, i.offered, |l.queue| < 2, |l.queue| > 0, if |l.queue| > 0 then l.queue[0] else 0)
  }

  /** A transaction takes place on the debug module interface. */
  predicate Transacts(l: Link) {
    l.bridge.reqValid && |l.queue| < 2
  }

  function NextLink(l: Link, i: LinkIn): Link {
    Link(NextBridge(l.bridge, BridgeInput(l, i)), NextQueue(2, l.queue, Request(l.bridge.reqValid, i.answer, l.bridge.respReady)))
  }

  /** Where the bridge is in its sequence, and what the queue holds then. */
  predicate InStep(l: Link) {
    var b := l.bridge;
    && !(b.doRequest && b.doEnd) && |l.queue| <= 1
    && (b.doRequest ==> !b.reqValid && !b.respReady && l.queue == [] && IsRequest(b.request))
    && (b.doEnd ==> IsRequest(b.request) && b.reqValid != b.respReady && (b.reqValid <==> l.queue == []))
    && (!b.doRequest && !b.doEnd ==> !b.reqValid && l.queue == [])
    && (b.doRead <==> (b.doRequest || b.doEnd) && b.request.op.OpRead?)
  }

  /** The queue never holds more than one entry, so the debug module is always ready and a request
      is never held up, which is what would repeat it. */
  lemma StaysInStep(l: Link, i: LinkIn)
    requires InStep(l)
    ensures InStep(NextLink(l, i)) && |l.queue| < 2
  {
  }

  function RunLink(l: Link, run: seq<LinkIn>): Link
    decreases |run|
  {
    if |run| == 0 then l else RunLink(NextLink(l, run[0]), run[1..])
  }

  /** Requests taken over from the port. */
  function AllTaken(l: Link, run: seq<LinkIn>): seq<Transaction>
    decreases |run|
  {
    if |run| == 0 then []
    else (if Takes(l.bridge, BridgeInput(l, run[0])) then [run[0].offered] else []) + AllTaken(NextLink(l, run[0]), run[1..])
  }

  /** Transactions on the debug module interface. */
  function AllSent(l: Link, run: seq<LinkIn>): seq<Transaction>
    decreases |run|
  {
    if |run| == 0 then []
    else (if Transacts(l) then [l.bridge.request] else []) + AllSent(NextLink(l, run[0]), run[1..])
  }

  /** Taken over but not sent yet. */
  function Outstanding(l: Link): seq<Transaction> {
    if l.bridge.doRequest || (l.bridge.doEnd && l.bridge.reqValid) then [l.bridge.request] else []
  }

  /** Each request the bridge takes over makes exactly one transaction, in order. */
  lemma {:induction false} OneTransactionEach(l: Link, run: seq<LinkIn>)
    requires InStep(l)
    ensures Outstanding(l) + AllTaken(l, run) == AllSent(l, run) + Outstanding(RunLink(l, run))
    decreases |run|
  {
    if |run| > 0 {
      var n, rest := NextLink(l, run[0]), run[1..];
      StaysInStep(l, run[0]);
      OneTransactionEach(n, rest);
      var took, sent := if Takes(l.bridge, BridgeInput(l, run[0])) then [run[0].offered] else [], if Transacts(l) then [l.bridge.request] else [];
      Balance(l, run[0]);
      assert Outstanding(l) + (took + AllTaken(n, rest)) == (Outstanding(l) + took) + AllTaken(n, rest);
      assert (sent + Outstanding(n)) + AllTaken(n, rest) == sent + (Outstanding(n) + AllTaken(n, rest));
      assert sent + (AllSent(n, rest) + Outstanding(RunLink(n, rest))) == (sent + AllSent(n, rest)) + Outstanding(RunLink(n, rest));
    } else {
      assert Outstanding(l) + [] == [] + Outstanding(l);
    }
  }

  lemma Balance(l: Link, i: LinkIn)
    requires InStep(l)
    ensures Outstanding(l) + (if Takes(l.bridge, BridgeInput(l, i)) then [i.offered] else [])
         == (if Transacts(l) then [l.bridge.request] else []) + Outstanding(NextLink(l, i))
  {
  }

  /** Answers to the reads among the transactions. */
  function ReadAnswers(l: Link, run: seq<LinkIn>): seq<Word>
    decreases |run|
  {
    if |run| == 0 then []
    else (if Transacts(l) && l.bridge.request.op.OpRead? then [run[0].answer] else []) + ReadAnswers(NextLink(l, run[0]), run[1..])
  }

  /** Responses captured for the port. */
  function Captured(l: Link, run: seq<LinkIn>): seq<Word>
    decreases |run|
  {
    if |run| == 0 then []
    else
      var n := NextLink(l, run[0]);
      (if l.bridge.doRead && !n.bridge.doRead then [n.bridge.resp] else []) + Captured(n, run[1..])
  }

  /** A read answer waiting in the queue. */
  function Waiting(l: Link): seq<Word> {
    if l.bridge.doRead then l.queue else []
  }

  lemma AnswerBalance(l: Link, i: LinkIn)
    requires InStep(l)
    ensures var n := NextLink(l, i);
      Waiting(l) + (if Transacts(l) && l.bridge.request.op.OpRead? then [i.answer] else [])
      == (if l.bridge.doRead && !n.bridge.doRead then [n.bridge.resp] else []) + Waiting(n)
  {
  }

  /** Every read captures the answer to its own transaction, in order; writes capture nothing. */
  lemma {:induction false} ReadsGetTheirAnswers(l: Link, run: seq<LinkIn>)
    requires InStep(l)
    ensures Waiting(l) + ReadAnswers(l, run) == Captured(l, run) + Waiting(RunLink(l, run))
    decreases |run|
  {
    hide NextLink, InStep, Transacts, Waiting;
    if |run| > 0 {
      var n, rest := NextLink(l, run[0]), run[1..];
      StaysInStep(l, run[0]);
      ReadsGetTheirAnswers(n, rest);
      AnswerBalance(l, run[0]);
      var came := if Transacts(l) && l.bridge.request.op.OpRead? then [run[0].answer] else [];
      var went := if l.bridge.doRead && !n.bridge.doRead then [n.bridge.resp] else [];
      Associates(Waiting(l), came, ReadAnswers(n, rest));
      Associates(went, Waiting(n), ReadAnswers(n, rest));
      Associates(went, Captured(n, rest), Waiting(RunLink(n, rest)));
    } else {
      assert Waiting(l) + [] == [] + Waiting(l);
    }
  }

  lemma {:induction false} HoldsLastCaptured(l: Link, run: seq<LinkIn>)
    requires InStep(l)
    ensures var c, f := Captured(l, run), RunLink(l, run);
      InStep(f) && f.bridge.resp == if |c| > 0 then c[|c| - 1] else l.bridge.resp
    decreases |run|
  {
    if |run| > 0 {
      StaysInStep(l, run[0]);
      hide InStep;
      HoldsLastCaptured(NextLink(l, run[0]), run[1..]);
    }
  }

  /** Whenever the port is answered, it gets the answer to the last read that was taken over. */
  lemma PortReadsLastAnswer(run: seq<LinkIn>)
    requires AnswersRead(RunLink(LINK_RESET, run).bridge, true)
    ensures var f, answers := RunLink(LINK_RESET, run), ReadAnswers(LINK_RESET, run);
      f.bridge.resp == if |answers| > 0 then answers[|answers| - 1] else 0
  {
    assert InStep(LINK_RESET);
    hide InStep;
    ReadsGetTheirAnswers(LINK_RESET, run);
    HoldsLastCaptured(LINK_RESET, run);
    assert Waiting(LINK_RESET) == [] && Waiting(RunLink(LINK_RESET, run)) == [];
    assert [] + ReadAnswers(LINK_RESET, run) == ReadAnswers(LINK_RESET, run);
    assert Captured(LINK_RESET, run) + [] == Captured(LINK_RESET, run);
  }

  /** A debug module that stalls does get the request twice: the strobe follows the readiness by
      one cycle, so a request held up for one cycle is still strobed in the cycle after it has
      been accepted. */
  lemma StallRepeats(b: Bridge, i: BridgeIn, j: BridgeIn, k: BridgeIn)
    requires b.doRequest && !b.doEnd && !i.reqReady && j.reqReady && k.reqReady
    ensures var b1 := NextBridge(b, i); var b2 := NextBridge(b1, j);
      && b1.reqValid && b2.reqValid && b1.request == b2.request == b.request && !b2.doRequest
  {
  }
}
