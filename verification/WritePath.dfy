/** A register write over the serial port, from the bytes the receiver shows to the transaction on
    the debug module interface. */
module WritePath {
  import opened Words
  import opened Serdes
  import opened EscapeCoding
  import opened DmiBridge
  import opened UartTap

  datatype Port = Port(rx: Rx, dec: Dec, arb: Arb, deser: Deser, link: Link)

  /** One cycle: the receive buffer, the other targets, and the debug module's answer. */
  datatype PortIn = PortIn(empty: bool, head: Byte, stbReady: bool, answer: Word)

  predicate ValidPort(p: Port) {
    |p.arb.data| == MAX_BITS && ValidDeser(MAX_BITS, p.arb.length, p.deser) && NoWrap(MAX_BITS, p.arb.length)
  }

  /** The port takes a command while the decoder is idle, and anything while a payload is received. */
  predicate RxRead(p: Port) {
    Shown(p.rx) != [] && ((p.dec.phase.DecIdle? && p.rx.phase.RxCommand?) || p.arb.recv)
  }

  function PortArbIn(p: Port, i: PortIn): ArbIn {
    ArbIn(WriteOffered(p.dec), p.dec.cmd, OfferedAddr(p.dec), p.rx.phase.RxData?, p.deser.done, p.deser.data,
          TargetReady(p.arb.addr, p.link.bridge.readyO, i.stbReady))
  }

  function PortLinkIn(p: Port, i: PortIn): LinkIn
    requires ValidPort(p)
  {
    LinkIn(p.deser.done && p.arb.addr == ADDR_DMI, TransactionOf(p.arb.data), i.answer)
  }

  /** All parts on one clock edge; the read side takes no part. */
  function NextPort(p: Port, i: PortIn): Port
    requires ValidPort(p)
  {
    Port(NextRx(p.rx, RxIn(i.empty, i.head, RxRead(p))),
         NextDec(p.dec, RxRead(p) && p.rx.phase.RxCommand?, p.rx.data, p.arb.ready, false),
         NextArb(p.arb, PortArbIn(p, i)),
         if p.arb.reset then DeserReset(MAX_BITS) else NextDeser(MAX_BITS, p.arb.length, p.deser, DeserIn(p.arb.run, p.rx.data)),
         NextLink(p.link, PortLinkIn(p, i)))
  }

  lemma CounterOf48()
    ensures CounterRange(48) == 64
  {
    assert PowerFrom(32, 48) == 64;
    assert PowerFrom(8, 48) == 64;
    assert PowerFrom(2, 48) == 64;
  }

  lemma LengthsFit(length: nat)
    requires length <= MAX_BITS
    ensures NoWrap(MAX_BITS, length) && FitsDeser(MAX_BITS, length)
  {
    CounterOf48();
  }

  // ---- Collecting the payload ----------------------------------------------------------------------------

  /** The link rests. */
  predicate LinkIdle(l: Link) {
    InStep(l) && !l.bridge.doRequest && !l.bridge.doEnd
  }

  /** A write to the debug module interface waits for its payload: `got` is collected, and a byte
      that was shown in the last cycle is about to be. `stale` is what the multiplexer still shows. */
  predicate Collecting(p: Port, got: seq<Byte>, stale: seq<bool>) {
    && p.arb == Arb(false, CMD_WRITE, ADDR_DMI, stale, false, p.arb.run, WIDTH, true) && |stale| == MAX_BITS
    && ValidPort(p) && Collected(WIDTH, p.deser, got) && !p.deser.done && |got| < 6
    && !p.dec.phase.DecHandover? && LinkIdle(p.link) && !p.link.bridge.readyO
    && !p.rx.phase.RxCommand? && (p.arb.run ==> p.rx.phase.RxIdle?)
  }

  /** Bytes collected and about to be. */
  function Pending(p: Port): seq<Byte> {
    if p.arb.run then [p.rx.data] else []
  }

  /** The byte that is read in this cycle. */
  function ReadNow(p: Port): seq<Byte> {
    if p.rx.phase.RxData? && RxRead(p) then [p.rx.data] else []
  }

  /** One cycle of receiving, as long as the payload is not complete. */
  lemma CollectStep(p: Port, i: PortIn, got: seq<Byte>, stale: seq<bool>)
    requires Collecting(p, got, stale) && |got + Pending(p)| < 6
    requires !NextPort(p, i).rx.phase.RxCommand?
    ensures Collecting(NextPort(p, i), got + Pending(p), stale)
    ensures Pending(NextPort(p, i)) == ReadNow(p) && !Transacts(p.link)
  {
    hide Spliced, Holds, TransactionOf, CounterRange, NoWrap, Collected, NextDeser, InStep;
    assert RxRead(p) <==> p.rx.phase.RxData?;
    CollectsByte(MAX_BITS, WIDTH, p.deser, got, DeserIn(p.arb.run, p.rx.data));
    NextStaysValid(MAX_BITS, WIDTH, p.deser, DeserIn(p.arb.run, p.rx.data));
    NotDone(p.deser, got, DeserIn(p.arb.run, p.rx.data));
    IdleLinkStays(p.link, PortLinkIn(p, i));
    assert got + [] == got;
  }

  lemma NotDone(s: Deser, got: seq<Byte>, i: DeserIn)
    requires ValidDeser(MAX_BITS, WIDTH, s) && Collected(WIDTH, s, got) && !s.done && |got| < 6
    ensures !NextDeser(MAX_BITS, WIDTH, s, i).done
  {
    hide Spliced, Holds, CounterRange;
  }

  lemma IdleLinkStays(l: Link, i: LinkIn)
    requires LinkIdle(l) && !i.valid
    ensures LinkIdle(NextLink(l, i)) && !NextLink(l, i).bridge.readyO && !Transacts(l)
  {
  }

  // ---- Runs -----------------------------------------------------------------------------------------------

  lemma PortStaysValid(p: Port, i: PortIn)
    requires ValidPort(p)
    ensures ValidPort(NextPort(p, i))
  {
    hide Spliced, TransactionOf, CounterRange, NoWrap, NextLink, NextRx, NextDec;
    NextStaysValid(MAX_BITS, p.arb.length, p.deser, DeserIn(p.arb.run, p.rx.data));
    LengthsFit(WriteLength(OfferedAddr(p.dec)));
  }

  function RunPort(p: Port, run: seq<PortIn>): (f: Port)
    requires ValidPort(p)
    ensures ValidPort(f)
    decreases |run|
  {
    if |run| == 0 then p else (PortStaysValid(p, run[0]); RunPort(NextPort(p, run[0]), run[1..]))
  }

  /** Transactions on the debug module interface during a run. */
  function SentBy(p: Port, run: seq<PortIn>): seq<Transaction>
    requires ValidPort(p)
    decreases |run|
  {
    if |run| == 0 then []
    else
      (PortStaysValid(p, run[0]);
       (if Transacts(p.link) then [p.link.bridge.request] else []) + SentBy(NextPort(p, run[0]), run[1..]))
  }

  /** Bytes read during a run. */
  function ReadBy(p: Port, run: seq<PortIn>): seq<Byte>
    requires ValidPort(p)
    decreases |run|
  {
    if |run| == 0 then [] else (PortStaysValid(p, run[0]); ReadNow(p) + ReadBy(NextPort(p, run[0]), run[1..]))
  }

  /** No command byte comes in during a run. */
  predicate DataOnly(p: Port, run: seq<PortIn>)
    requires ValidPort(p)
    decreases |run|
  {
    !p.rx.phase.RxCommand? && (|run| > 0 ==> (PortStaysValid(p, run[0]); DataOnly(NextPort(p, run[0]), run[1..])))
  }

  lemma {:induction false} RunPortConcat(p: Port, a: seq<PortIn>, b: seq<PortIn>)
    requires ValidPort(p)
    ensures RunPort(p, a + b) == RunPort(RunPort(p, a), b)
    ensures SentBy(p, a + b) == SentBy(p, a) + SentBy(RunPort(p, a), b)
    decreases |a|
  {
    hide NextPort, ValidPort;
    if |a| == 0 {
      assert a + b == b;
    } else {
      PortStaysValid(p, a[0]);
      assert (a + b)[0] == a[0] && (a + b)[1..] == a[1..] + b;
      RunPortConcat(NextPort(p, a[0]), a[1..], b);
    }
  }

  /** `all` has been read: collected, or about to be. */
  predicate Taking(p: Port, all: seq<Byte>, stale: seq<bool>) {
    var n := |all| - |Pending(p)|;
    n >= 0 && Collecting(p, all[..n], stale) && all[n..] == Pending(p)
  }

  lemma TakeStep(p: Port, i: PortIn, all: seq<Byte>, stale: seq<bool>)
    requires Taking(p, all, stale) && |all| < 6
    requires ValidPort(p) && !NextPort(p, i).rx.phase.RxCommand?
    ensures Taking(NextPort(p, i), all + ReadNow(p), stale) && !Transacts(p.link)
  {
    hide Collecting, NextPort, ValidPort, Transacts, ReadNow, Pending;
    var got := all[..|all| - |Pending(p)|];
    assert got + Pending(p) == all;
    CollectStep(p, i, got, stale);
    assert (all + ReadNow(p))[..|all|] == all;
  }

  /** Receiving up to the cycle in which the sixth byte is read: everything read is collected or
      about to be, and nothing is sent. */
  lemma {:induction false} CollectRun(p: Port, run: seq<PortIn>, all: seq<Byte>, stale: seq<bool>)
    requires ValidPort(p) && Taking(p, all, stale) && DataOnly(p, run)
    requires forall n :: 0 <= n < |run| ==> |all| + |ReadBy(p, run[..n])| < 6
    ensures Taking(RunPort(p, run), all + ReadBy(p, run), stale) && SentBy(p, run) == []
    decreases |run|
  {
    hide Taking, NextPort, ValidPort, Transacts, ReadNow, RunPort, ReadBy, SentBy, DataOnly, Pending;
    EmptyRun(p);
    if |run| == 0 {
      assert all + [] == all;
    } else {
      var i, rest, n := run[0], run[1..], NextPort(p, run[0]);
      assert run[..0] == [];
      FirstOf(p, run);
      TakeStep(p, i, all, stale);
      forall m | 0 <= m < |rest| ensures |all + ReadNow(p)| + |ReadBy(n, rest[..m])| < 6 {
        FirstOf(p, run[..m + 1]);
        assert run[..m + 1][1..] == rest[..m];
      }
      CollectRun(n, rest, all + ReadNow(p), stale);
      assert (all + ReadNow(p)) + ReadBy(n, rest) == all + (ReadNow(p) + ReadBy(n, rest));
    }
  }

  lemma FirstOf(p: Port, run: seq<PortIn>)
    requires ValidPort(p) && |run| > 0
    ensures var n := NextPort(p, run[0]);
      && ValidPort(n) && RunPort(p, run) == RunPort(n, run[1..]) && ReadBy(p, run) == ReadNow(p) + ReadBy(n, run[1..])
      && SentBy(p, run) == (if Transacts(p.link) then [p.link.bridge.request] else []) + SentBy(n, run[1..])
      && (DataOnly(p, run) ==> !n.rx.phase.RxCommand? && DataOnly(n, run[1..]))
  {
    hide NextPort, ValidPort, Transacts, ReadNow;
    PortStaysValid(p, run[0]);
    if DataOnly(p, run) { DataOnlyNow(NextPort(p, run[0]), run[1..]); }
  }

  lemma DataOnlyNow(p: Port, run: seq<PortIn>)
    requires ValidPort(p) && DataOnly(p, run)
    ensures !p.rx.phase.RxCommand?
  {
  }

  lemma EmptyRun(p: Port)
    requires ValidPort(p)
    ensures RunPort(p, []) == p && ReadBy(p, []) == [] && SentBy(p, []) == []
  {
  }

  // ---- Handing the payload on -----------------------------------------------------------------------------

  /** The receiver is quiet and the write to the debug module interface is in progress; the
      deserializer and the registers of the arbiter are as given. */
  predicate HandingOn(p: Port, data: seq<bool>, reset: bool, recv: bool, done: bool, bytes: seq<Byte>) {
    && p.arb == Arb(false, CMD_WRITE, ADDR_DMI, data, reset, false, WIDTH, recv) && |data| == MAX_BITS
    && ValidPort(p) && Collected(WIDTH, p.deser, bytes) && p.deser.done == done
    && !p.dec.phase.DecHandover? && p.rx.phase.RxIdle? && InStep(p.link)
  }

  predicate Resting(b: Bridge) { !b.doRequest && !b.doEnd }

  /** First cycle of a request in the bridge. */
  predicate Requesting(b: Bridge, t: Transaction) { b.doRequest && b.request == t }

  /** The cycle of the transaction, and the one in which the response is taken. */
  predicate Transacting(b: Bridge, t: Transaction) { b.doEnd && b.reqValid && b.request == t }

  predicate Responding(b: Bridge) { b.doEnd && !b.reqValid }

  /** The bridge moves on by itself through a request. */
  lemma BridgeMoves(l: Link, i: LinkIn, t: Transaction)
    requires InStep(l)
    ensures InStep(NextLink(l, i))
    ensures Requesting(l.bridge, t) ==> Transacting(NextLink(l, i).bridge, t) && !Transacts(l) && !NextLink(l, i).bridge.readyO
    ensures Transacting(l.bridge, t) ==> Responding(NextLink(l, i).bridge) && Transacts(l) && l.bridge.request == t && !NextLink(l, i).bridge.readyO
    ensures Responding(l.bridge) ==> Resting(NextLink(l, i).bridge) && !Transacts(l) && !NextLink(l, i).bridge.readyO
    ensures Resting(l.bridge) ==> !Transacts(l) && NextLink(l, i).bridge.readyO == i.valid
    ensures Resting(l.bridge) && i.valid && IsRequest(i.offered) ==> Requesting(NextLink(l, i).bridge, i.offered)
    ensures Resting(l.bridge) && !(i.valid && IsRequest(i.offered)) ==> Resting(NextLink(l, i).bridge)
  {
  }

  /** One quiet cycle of the parts before the bridge. */
  lemma HandOnStep(p: Port, i: PortIn, data: seq<bool>, reset: bool, recv: bool, done: bool, bytes: seq<Byte>)
    requires HandingOn(p, data, reset, recv, done, bytes) && i.empty && (|bytes| == 0 || |bytes| == 6)
    ensures var n, ready := NextPort(p, i), p.link.bridge.readyO;
      HandingOn(n, if done then p.deser.data else data, done && ready, !done,
                if reset then false else if |bytes| == 6 then true else false, if reset then [] else bytes)
      && (!reset ==> n.deser.data == p.deser.data)
      && n.link == NextLink(p.link, LinkIn(done, TransactionOf(data), i.answer))
  {
    hide Spliced, TransactionOf, CounterRange, NoWrap, NextLink, InStep;
    PortStaysValid(p, i);
    BridgeMoves(p.link, PortLinkIn(p, i), p.link.bridge.request);
    ResetCollected();
  }

  lemma ResetCollected()
    ensures Collected(WIDTH, DeserReset(MAX_BITS), [])
  {
  }

  predicate AllEmpty(run: seq<PortIn>) {
    forall k :: 0 <= k < |run| ==> run[k].empty
  }

  /** The transaction of a cycle, if any. */
  function SentNow(p: Port): seq<Transaction> {
    if Transacts(p.link) then [p.link.bridge.request] else []
  }

  /** The sixth byte is collected. */
  lemma LastByte(p: Port, i: PortIn, bytes: seq<Byte>, stale: seq<bool>)
    requires ValidPort(p) && Taking(p, bytes, stale) && |bytes| == 6 && i.empty
    ensures var n := NextPort(p, i);
      HandingOn(n, stale, false, true, false, bytes) && Resting(n.link.bridge) && !n.link.bridge.readyO && SentNow(p) == []
  {
    hide Spliced, Holds, TransactionOf, CounterRange, NoWrap, Collected, NextDeser, InStep;
    var got := bytes[..|bytes| - |Pending(p)|];
    assert got + Pending(p) == bytes;
    CollectsByte(MAX_BITS, WIDTH, p.deser, got, DeserIn(p.arb.run, p.rx.data));
    NotDone(p.deser, got, DeserIn(p.arb.run, p.rx.data));
    IdleLinkStays(p.link, PortLinkIn(p, i));
    PortStaysValid(p, i);
  }

  /** The word that went out, if any. */
  function Expected(stale: seq<bool>, data: seq<bool>): seq<Transaction>
    requires |stale| >= WIDTH && |data| >= WIDTH
  {
    if IsRequest(TransactionOf(stale)) then [TransactionOf(stale)]
    else if IsRequest(TransactionOf(data)) then [TransactionOf(data)]
    else []
  }

  /** Strobe and data reach the bridge one after the other: first it sees the strobe with the stale
      word, then with the new one. */
  lemma StrobeSeen(p1: Port, a: PortIn, b: PortIn, stale: seq<bool>, bytes: seq<Byte>)
    requires HandingOn(p1, stale, false, true, false, bytes) && |bytes| == 6 && a.empty && b.empty
    requires Resting(p1.link.bridge)
    ensures ValidPort(NextPort(p1, a))
    ensures var p2 := NextPort(p1, a); var p3 := NextPort(p2, b);
      && HandingOn(p3, p1.deser.data, false, false, true, bytes) && p3.deser.data == p1.deser.data
      && p3.link.bridge.readyO && SentNow(p1) == [] && SentNow(p2) == []
      && (if IsRequest(TransactionOf(stale)) then Requesting(p3.link.bridge, TransactionOf(stale)) else Resting(p3.link.bridge))
  {
    PortStaysValid(p1, a);
    hide NextPort, ValidPort, Collected, TransactionOf, InStep, NextLink, Requesting, Resting, Transacting, Responding, Transacts;
    var p2, t := NextPort(p1, a), TransactionOf(stale);
    HandOnStep(p1, a, stale, false, true, false, bytes);
    BridgeMoves(p1.link, LinkIn(false, t, a.answer), t);
    HandOnStep(p2, b, stale, false, true, true, bytes);
    BridgeMoves(p2.link, LinkIn(true, t, b.answer), t);
  }

  /** From there to the deserializer's reset. */
  lemma WordSeen(p3: Port, a: PortIn, b: PortIn, data: seq<bool>, bytes: seq<Byte>, t: Transaction, stuck: bool)
    requires HandingOn(p3, data, false, false, true, bytes) && |bytes| == 6 && a.empty && b.empty && p3.deser.data == data
    requires p3.link.bridge.readyO && if stuck then Requesting(p3.link.bridge, t) else Resting(p3.link.bridge)
    ensures ValidPort(NextPort(p3, a))
    ensures var p4 := NextPort(p3, a); var p5 := NextPort(p4, b); var new_ := TransactionOf(data);
      && HandingOn(p5, data, !stuck, false, false, [])
      && SentNow(p3) == [] && SentNow(p4) == (if stuck then [t] else [])
      && (stuck ==> Responding(p5.link.bridge))
      && (!stuck && IsRequest(new_) ==> Transacting(p5.link.bridge, new_))
      && (!stuck && !IsRequest(new_) ==> Resting(p5.link.bridge))
  {
    PortStaysValid(p3, a);
    hide NextPort, ValidPort, Collected, TransactionOf, InStep, NextLink, Requesting, Resting, Transacting, Responding, Transacts;
    var p4, new_ := NextPort(p3, a), TransactionOf(data);
    HandOnStep(p3, a, data, false, false, true, bytes);
    BridgeMoves(p3.link, LinkIn(true, new_, a.answer), t);
    HandOnStep(p4, b, data, true, false, true, bytes);
    BridgeMoves(p4.link, LinkIn(true, new_, b.answer), t);
    BridgeMoves(p4.link, LinkIn(true, new_, b.answer), new_);
  }

  /** And back to collecting, with the word of this payload left in the multiplexer. */
  lemma WordDone(p5: Port, a: PortIn, b: PortIn, data: seq<bool>, reset: bool, t: Transaction)
    requires HandingOn(p5, data, reset, false, false, []) && a.empty && b.empty
    requires Responding(p5.link.bridge) || Transacting(p5.link.bridge, t) || Resting(p5.link.bridge)
    ensures ValidPort(NextPort(p5, a))
    ensures var p6 := NextPort(p5, a); var p7 := NextPort(p6, b);
      && HandingOn(p7, data, false, true, false, []) && Resting(p7.link.bridge) && !p7.link.bridge.readyO
      && SentNow(p5) == (if Transacting(p5.link.bridge, t) then [t] else []) && SentNow(p6) == []
  {
    PortStaysValid(p5, a);
    Exclusive(p5.link.bridge, t);
    hide NextPort, ValidPort, Collected, TransactionOf, InStep, NextLink, Requesting, Resting, Transacting, Responding, Transacts;
    var p6, w := NextPort(p5, a), TransactionOf(data);
    HandOnStep(p5, a, data, reset, false, false, []);
    BridgeMoves(p5.link, LinkIn(false, w, a.answer), t);
    HandOnStep(p6, b, data, false, true, false, []);
    BridgeMoves(p6.link, LinkIn(false, w, b.answer), t);
  }

  lemma Exclusive(b: Bridge, t: Transaction)
    ensures Responding(b) ==> !Transacting(b, t) && !Resting(b)
    ensures Resting(b) ==> !Transacting(b, t)
  {
  }

  /** The vector of a payload. */
  function VectorOf(bytes: seq<Byte>): (data: seq<bool>)
    requires |bytes| == 6
    ensures |data| == MAX_BITS
  {
    BitsOf(bytes[0], 8) + BitsOf(bytes[1], 8) + BitsOf(bytes[2], 8) + BitsOf(bytes[3], 8) + BitsOf(bytes[4], 8) + BitsOf(bytes[5], 8)
  }

  lemma HeldIsVector(data: seq<bool>, bytes: seq<Byte>)
    requires |bytes| == 6 && |data| == MAX_BITS && Holds(data, bytes)
    ensures data == VectorOf(bytes)
  {
    hide BitsOf;
    forall i | 0 <= i < MAX_BITS ensures data[i] == VectorOf(bytes)[i] {
      VectorAt(bytes, i);
    }
  }

  lemma VectorAt(bytes: seq<Byte>, i: nat)
    requires |bytes| == 6 && i < MAX_BITS
    ensures VectorOf(bytes)[i] == BitsOf(bytes[i / 8], 8)[i % 8]
  {
    hide BitsOf;
  }

  lemma OneCycleRun(p: Port, a: PortIn)
    requires ValidPort(p)
    ensures RunPort(p, [a]) == NextPort(p, a) && SentBy(p, [a]) == SentNow(p)
  {
    hide NextPort, ValidPort, Transacts, RunPort, SentBy, ReadBy, DataOnly;
    FirstOf(p, [a]);
    assert [a][1..] == [];
    EmptyRun(NextPort(p, a));
    assert SentNow(p) + [] == SentNow(p);
  }

  lemma TwoCycleRun(p: Port, a: PortIn, b: PortIn)
    requires ValidPort(p)
    ensures ValidPort(NextPort(p, a)) && RunPort(p, [a, b]) == NextPort(NextPort(p, a), b)
    ensures SentBy(p, [a, b]) == SentNow(p) + SentNow(NextPort(p, a))
  {
    hide NextPort, ValidPort, RunPort, SentBy, SentNow;
    PortStaysValid(p, a);
    OneCycleRun(p, a);
    OneCycleRun(NextPort(p, a), b);
    assert [a, b] == [a] + [b];
    RunPortConcat(p, [a], [b]);
  }

  /** A complete payload followed by quiet cycles: exactly the expected transaction takes place, and
      the port is ready for another payload. */
  lemma PayloadServed(p: Port, run: seq<PortIn>, bytes: seq<Byte>, stale: seq<bool>)
    requires ValidPort(p) && Taking(p, bytes, stale) && |bytes| == 6 && |stale| == MAX_BITS && |run| == 7 && AllEmpty(run)
    ensures SentBy(p, run) == Expected(stale, VectorOf(bytes)) && Taking(RunPort(p, run), [], VectorOf(bytes))
  {
    var front, rest := [run[0]], [run[1], run[2]] + ([run[3], run[4]] + [run[5], run[6]]);
    SevenParts(run);
    var p1 := NextPort(p, run[0]);
    LastByte(p, run[0], bytes, stale);
    assert p1.deser.data == VectorOf(bytes) by { CollectedVector(p1.deser, bytes); }
    hide *;
    OneCycleRun(p, run[0]);
    PayloadForwarded(p1, run[1], run[2], run[3], run[4], run[5], run[6], bytes, stale);
    RunPortConcat(p, front, rest);
    assert [] + SentBy(p1, rest) == SentBy(p1, rest);
  }

  lemma SevenParts(run: seq<PortIn>)
    requires |run| == 7
    ensures run == [run[0]] + ([run[1], run[2]] + ([run[3], run[4]] + [run[5], run[6]]))
    ensures AllEmpty(run) ==> AllEmpty([run[1], run[2], run[3], run[4], run[5], run[6]])
  {
  }

  lemma CollectedVector(s: Deser, bytes: seq<Byte>)
    requires Collected(WIDTH, s, bytes) && |bytes| == 6 && |s.data| == MAX_BITS
    ensures s.data == VectorOf(bytes)
  {
    hide Holds, VectorOf;
    HeldIsVector(s.data, bytes);
  }

  lemma PayloadForwarded(p1: Port, a: PortIn, b: PortIn, c: PortIn, d: PortIn, e: PortIn, f: PortIn, bytes: seq<Byte>, stale: seq<bool>)
    requires HandingOn(p1, stale, false, true, false, bytes) && |bytes| == 6 && Resting(p1.link.bridge)
    requires p1.deser.data == VectorOf(bytes) && AllEmpty([a, b, c, d, e, f])
    ensures var run := [a, b] + ([c, d] + [e, f]);
      SentBy(p1, run) == Expected(stale, VectorOf(bytes)) && Taking(RunPort(p1, run), [], VectorOf(bytes))
  {
    var t, data := TransactionOf(stale), VectorOf(bytes);
    var stuck := IsRequest(t);
    assert [a, b, c, d, e, f][0].empty && [a, b, c, d, e, f][1].empty && [a, b, c, d, e, f][2].empty;
    assert [a, b, c, d, e, f][3].empty && [a, b, c, d, e, f][4].empty && [a, b, c, d, e, f][5].empty;
    hide NextPort, ValidPort, RunPort, SentBy, TransactionOf, Taking, Resting, Requesting, Responding, Transacting, VectorOf, SentNow, Collected;
    TwoCycleRun(p1, a, b);
    StrobeSeen(p1, a, b, stale, bytes);
    var p3 := RunPort(p1, [a, b]);
    TwoCycleRun(p3, c, d);
    WordSeen(p3, c, d, data, bytes, t, stuck);
    var p5 := RunPort(p3, [c, d]);
    TwoCycleRun(p5, e, f);
    Exclusive(p5.link.bridge, TransactionOf(data));
    WordDone(p5, e, f, data, !stuck, TransactionOf(data));
    CollectsAgain(RunPort(p5, [e, f]), data);
    RunPortConcat(p1, [a, b], [c, d] + [e, f]);
    RunPortConcat(p3, [c, d], [e, f]);
  }

  lemma CollectsAgain(p: Port, data: seq<bool>)
    requires HandingOn(p, data, false, true, false, []) && Resting(p.link.bridge) && !p.link.bridge.readyO
    ensures Taking(p, [], data)
  {
  }

  // ---- From the command byte on ------------------------------------------------------------------------------

  /** The command "write the debug module interface" is shown, and no earlier payload is complete. */
  predicate CommandShown(p: Port) {
    && ValidPort(p) && p.rx == Rx(RxCommand, CMD_WRITE * 32 + ADDR_DMI) && p.dec.phase.DecIdle? && LinkIdle(p.link)
    && Unfinished(p) && !p.arb.ready
  }

  predicate Unfinished(p: Port) {
    !p.deser.done && (p.arb.reset || (p.deser.count < p.arb.length && !p.arb.run))
  }

  /** The write command is offered to the arbiter. */
  predicate Offered(p: Port, d: DecPhase) {
    ValidPort(p) && p.rx.phase.RxIdle? && p.dec == Dec(d, ADDR_DMI, CMD_WRITE) && LinkIdle(p.link) && !p.deser.done
  }

  const FRESH := Arb(true, CMD_WRITE, ADDR_DMI, Zeros(MAX_BITS), true, false, WIDTH, false)

  lemma HandOver(p: Port, a: PortIn, b: PortIn)
    requires CommandShown(p) && a.empty && b.empty
    ensures ValidPort(NextPort(p, a))
    ensures var p2 := NextPort(NextPort(p, a), b);
      Offered(p2, DecHandover) && p2.arb == FRESH && SentNow(p) == [] && SentNow(NextPort(p, a)) == []
  {
    hide Spliced, TransactionOf, CounterRange, NoWrap, NextLink, InStep;
    PortStaysValid(p, a);
    var p1 := NextPort(p, a);
    PortStaysValid(p1, b);
    IdleLinkStays(p.link, PortLinkIn(p, a));
    IdleLinkStays(p1.link, PortLinkIn(p1, b));
  }

  lemma Acknowledge(p: Port, a: PortIn, b: PortIn)
    requires Offered(p, DecHandover) && p.arb == FRESH && a.empty && b.empty
    ensures ValidPort(NextPort(p, a))
    ensures var p2 := NextPort(NextPort(p, a), b);
      Taking(p2, [], Zeros(MAX_BITS)) && SentNow(p) == [] && SentNow(NextPort(p, a)) == []
  {
    hide Spliced, TransactionOf, CounterRange, NoWrap, NextLink, InStep;
    PortStaysValid(p, a);
    var p1 := NextPort(p, a);
    PortStaysValid(p1, b);
    IdleLinkStays(p.link, PortLinkIn(p, a));
    IdleLinkStays(p1.link, PortLinkIn(p1, b));
    ResetCollected();
  }

  /** Four cycles later the port collects, and the multiplexer shows zeros. */
  lemma CommandTaken(p: Port, h: seq<PortIn>)
    requires CommandShown(p) && |h| == 4 && AllEmpty(h)
    ensures Taking(RunPort(p, h), [], Zeros(MAX_BITS)) && SentBy(p, h) == []
  {
    assert h == [h[0], h[1]] + [h[2], h[3]];
    hide NextPort, ValidPort, RunPort, SentBy, Taking, SentNow, CommandShown, Offered;
    assert ValidPort(p) by { ShownValid(p); }
    TwoCycleRun(p, h[0], h[1]);
    HandOver(p, h[0], h[1]);
    var p2 := RunPort(p, [h[0], h[1]]);
    TwoCycleRun(p2, h[2], h[3]);
    Acknowledge(p2, h[2], h[3]);
    RunPortConcat(p, [h[0], h[1]], [h[2], h[3]]);
  }

  lemma ShownValid(p: Port)
    requires CommandShown(p)
    ensures ValidPort(p)
  {
  }

  /** A payload: data bytes only, read at any pace, up to the cycle in which the sixth is read. */
  predicate Payload(p: Port, w: seq<PortIn>)
    requires ValidPort(p)
  {
    DataOnly(p, w) && |ReadBy(p, w)| == 6 && forall n :: 0 <= n < |w| ==> |ReadBy(p, w[..n])| < 6
  }

  /** A payload and seven quiet cycles: the transaction that takes place is decided by the word the
      multiplexer showed before. */
  lemma PayloadWritten(p: Port, w: seq<PortIn>, q: seq<PortIn>, stale: seq<bool>)
    requires ValidPort(p) && Taking(p, [], stale) && |stale| == MAX_BITS && Payload(p, w) && |q| == 7 && AllEmpty(q)
    ensures SentBy(p, w + q) == Expected(stale, VectorOf(ReadBy(p, w)))
    ensures Taking(RunPort(p, w + q), [], VectorOf(ReadBy(p, w)))
  {
    hide NextPort, ValidPort, RunPort, SentBy, Taking, DataOnly, ReadBy, VectorOf, Expected;
    CollectRun(p, w, [], stale);
    assert [] + ReadBy(p, w) == ReadBy(p, w);
    PayloadServed(RunPort(p, w), q, ReadBy(p, w), stale);
    RunPortConcat(p, w, q);
    assert [] + SentBy(RunPort(p, w), q) == SentBy(RunPort(p, w), q);
  }

  lemma ZerosAreNop(data: seq<bool>)
    requires |data| == MAX_BITS
    ensures Expected(Zeros(MAX_BITS), data) == if IsRequest(TransactionOf(data)) then [TransactionOf(data)] else []
  {
  }

  /** End to end: a write command, six data bytes at any pace, and seven quiet cycles make exactly
      one transaction if the word asks for a read or a write, and none otherwise; the transaction
      is the word made of the bytes, lowest first. */
  lemma EndToEndWrite(p: Port, h: seq<PortIn>, w: seq<PortIn>, q: seq<PortIn>)
    requires CommandShown(p) && |h| == 4 && AllEmpty(h) && Payload(RunPort(p, h), w) && |q| == 7 && AllEmpty(q)
    ensures var t := TransactionOf(VectorOf(ReadBy(RunPort(p, h), w)));
      SentBy(p, h + (w + q)) == if IsRequest(t) then [t] else []
  {
    var p4 := RunPort(p, h);
    var data := VectorOf(ReadBy(p4, w));
    CommandTaken(p, h);
    hide NextPort, ValidPort, RunPort, SentBy, Taking, ReadBy, VectorOf, Expected, TransactionOf, Payload, CommandShown, IsRequest;
    PayloadWritten(p4, w, q, Zeros(MAX_BITS));
    ZerosAreNop(data);
    assert ValidPort(p) by { ShownValid(p); }
    RunPortConcat(p, h, w + q);
    assert [] + SentBy(p4, w + q) == SentBy(p4, w + q);
  }

  /** The bytes of a serialized word bring that word's transaction. */
  lemma WordArrives(word: seq<bool>, bytes: seq<Byte>)
    requires |word| == MAX_BITS && bytes == Serialized(word, WIDTH)
    ensures |bytes| == 6 && TransactionOf(VectorOf(bytes)) == TransactionOf(word)
    ensures Number(bytes) == Value(word[..WIDTH])
  {
    hide BitsOf, Number, Value;
    var data := VectorOf(bytes);
    forall i | 0 <= i < MAX_BITS ensures data[i] <==> i / 8 < |bytes| && BitsOf(bytes[i / 8], 8)[i % 8] { VectorAt(bytes, i); }
    assert Holds(data, bytes);
    HoldsOriginal(word, WIDTH, data);
    assert data[..WIDTH] == word[..WIDTH];
    assert data[2..34] == data[..WIDTH][2..34] && word[2..34] == word[..WIDTH][2..34];
    assert data[34..41] == data[..WIDTH][34..41] && word[34..41] == word[..WIDTH][34..41];
    assert data[0] == data[..WIDTH][0] && data[1] == data[..WIDTH][1];
    assert data[WIDTH..] == Zeros(7);
    VectorIsNumber(bytes);
    ZerosAbove(data);
  }

  lemma ZerosAbove(data: seq<bool>)
    requires |data| == MAX_BITS && data[WIDTH..] == Zeros(7)
    ensures Value(data) == Value(data[..WIDTH])
  {
    hide Value;
    assert data == data[..WIDTH] + Zeros(7);
    ValueOfConcat(data[..WIDTH], Zeros(7));
    ValueOfZeros(7);
  }

  /** A second payload under the same command is written as it should be if and only if the word
      before it asked for nothing, or is the very same request. */
  lemma RepeatedPayload(p: Port, w: seq<PortIn>, q: seq<PortIn>, stale: seq<bool>)
    requires ValidPort(p) && Taking(p, [], stale) && |stale| == MAX_BITS && Payload(p, w) && |q| == 7 && AllEmpty(q)
    ensures var t, old_ := TransactionOf(VectorOf(ReadBy(p, w))), TransactionOf(stale);
      SentBy(p, w + q) == (if IsRequest(t) then [t] else []) <==> !IsRequest(old_) || old_ == t
  {
    hide NextPort, ValidPort, RunPort, SentBy, Taking, ReadBy, VectorOf, TransactionOf, Payload, IsRequest;
    PayloadWritten(p, w, q, stale);
  }

  // ---- The payload as a number ------------------------------------------------------------------------------------

  /** Six bytes, lowest first. */
  function Number(bytes: seq<Byte>): nat
    requires |bytes| == 6
  {
    bytes[0] as nat + 0x100 * bytes[1] as nat + 0x1_0000 * bytes[2] as nat + 0x100_0000 * bytes[3] as nat
    + 0x1_0000_0000 * bytes[4] as nat + 0x100_0000_0000 * bytes[5] as nat
  }

  lemma ByteIn(b: Byte, rest: seq<bool>)
    ensures Value(BitsOf(b, 8) + rest) == b + 0x100 * Value(rest)
  {
    hide BitsOf, Value;
    ByteBound();
    ValueOfBits(b, 8);
    ValueOfConcat(BitsOf(b, 8), rest);
  }

  lemma VectorIsNumber(bytes: seq<Byte>)
    requires |bytes| == 6
    ensures Value(VectorOf(bytes)) == Number(bytes)
  {
    hide BitsOf, Value;
    var v5 := BitsOf(bytes[5], 8) + [];
    var v4 := BitsOf(bytes[4], 8) + v5;
    var v3 := BitsOf(bytes[3], 8) + v4;
    var v2 := BitsOf(bytes[2], 8) + v3;
    var v1 := BitsOf(bytes[1], 8) + v2;
    ByteIn(bytes[5], []);
    ByteIn(bytes[4], v5);
    ByteIn(bytes[3], v4);
    ByteIn(bytes[2], v3);
    ByteIn(bytes[1], v2);
    ByteIn(bytes[0], v1);
    NoBits();
    assert VectorOf(bytes) == BitsOf(bytes[0], 8) + v1;
  }

  lemma NoBits()
    ensures Value([]) == 0
  {
  }

  /** The parts of a vector of 48 bits as numbers. */
  lemma VectorParts(v: seq<bool>)
    requires |v| == 48
    ensures Value(v) == Value(v[..2]) + 4 * Value(v[2..34]) + 0x4_0000_0000 * Value(v[34..41]) + 0x200_0000_0000 * Value(v[41..])
    ensures Value(v[..2]) < 4 && Value(v[2..34]) < 0x1_0000_0000 && Value(v[34..41]) < 128
  {
    hide Value;
    assert v == v[..2] + (v[2..34] + (v[34..41] + v[41..]));
    ValueOfConcat(v[..2], v[2..34] + (v[34..41] + v[41..]));
    ValueOfConcat(v[2..34], v[34..41] + v[41..]);
    ValueOfConcat(v[34..41], v[41..]);
    Widths();
    BitsOfValue(v[..2]);
    BitsOfValue(v[2..34]);
    BitsOfValue(v[34..41]);
  }

  lemma Widths()
    ensures Pow2(2) == 4 && Pow2(7) == 128 && Pow2(32) == 0x1_0000_0000
  {
    assert Pow2(8) == 0x100 && Pow2(16) == 0x1_0000 && Pow2(24) == 0x100_0000;
  }

  /** Op, data, address and padding in mixed radix. */
  lemma SameParts(o: nat, d: nat, a: nat, p: nat, o': nat, d': nat, a': nat, p': nat)
    requires o < 4 && d < 0x1_0000_0000 && a < 128 && o' < 4 && d' < 0x1_0000_0000 && a' < 128
    requires o + 4 * d + 0x4_0000_0000 * a + 0x200_0000_0000 * p == o' + 4 * d' + 0x4_0000_0000 * a' + 0x200_0000_0000 * p'
    ensures o == o' && d == d' && a == a'
  {
    SplitAt(d + 0x1_0000_0000 * (a + 128 * p), o, 4);
    SplitAt(d' + 0x1_0000_0000 * (a' + 128 * p'), o', 4);
    SplitAt(a + 128 * p, d, 0x1_0000_0000);
    SplitAt(a' + 128 * p', d', 0x1_0000_0000);
    SplitAt(p, a, 128);
    SplitAt(p', a', 128);
  }

  /** The op code of a pair of bits. */
  lemma OpBits(v: seq<bool>)
    requires |v| >= 2
    ensures Value(v[..2]) == (if v[0] then 1 else 0) + (if v[1] then 2 else 0)
  {
    assert v[..2][1..] == [v[1]] && [v[1]][1..] == [];
    assert Value(v[..2]) == (if v[0] then 1 else 0) + 2 * Value([v[1]]);
  }

  lemma NumberIsTransaction(bytes: seq<Byte>, addr: nat, data: Word, op: nat, padding: nat)
    requires |bytes| == 6 && addr < 128 && op < 4
    requires Number(bytes) == padding * 0x200_0000_0000 + addr * 0x4_0000_0000 + data * 4 + op
    ensures var t := TransactionOf(VectorOf(bytes));
      t.addr == addr && t.data == data && (t.op.OpRead? <==> op == 1) && (t.op.OpWrite? <==> op == 2)
  {
    var v := VectorOf(bytes);
    hide VectorOf, Value, Number;
    VectorIsNumber(bytes);
    VectorParts(v);
    OpBits(v);
    SameParts(Value(v[..2]), Value(v[2..34]), Value(v[34..41]), Value(v[41..]), op, data, addr, padding);
  }

  /** End to end, in numbers: command byte 0x71, then six bytes whose value, lowest byte first, has the
      op code in bits 1 and 0, the data in bits 33 to 2 and the address in bits 40 to 34. Op code 1
      makes exactly one read of that address, 2 exactly one write of that data to it, and 0 and 3
      make no transaction. */
  lemma NumberWritten(p: Port, h: seq<PortIn>, w: seq<PortIn>, q: seq<PortIn>, addr: nat, data: Word, op: nat, padding: nat)
    requires CommandShown(p) && |h| == 4 && AllEmpty(h) && Payload(RunPort(p, h), w) && |q| == 7 && AllEmpty(q)
    requires addr < 128 && op < 4
    requires Number(ReadBy(RunPort(p, h), w)) == padding * 0x200_0000_0000 + addr * 0x4_0000_0000 + data * 4 + op
    ensures p.rx == Rx(RxCommand, 0x71)
    ensures SentBy(p, h + (w + q))
         == if op == 1 then [Transaction(addr, data, OpRead)] else if op == 2 then [Transaction(addr, data, OpWrite)] else []
  {
    assert p.rx == Rx(RxCommand, 0x71);
    hide ValidPort, RunPort, SentBy, ReadBy, VectorOf, TransactionOf, Payload, CommandShown, Number;
    EndToEndWrite(p, h, w, q);
    NumberIsTransaction(ReadBy(RunPort(p, h), w), addr, data, op, padding);
  }
}
