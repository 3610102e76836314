/** The transmit path: serializer, stuffing stage and line driver, clock by clock, and the proof
    that every byte goes out exactly once. */
module TxPath {
  import opened Words
  import opened EscapeCoding
  import opened Serdes
  import UartFrame

  // ---- The stuffing stage --------------------------------------------------------------------------

  datatype Tx = Tx(buffer: Byte, sendEsc: bool, sendData: bool, wasReady: bool, outData: Byte, outWrite: bool)

  /** One cycle: readiness of the line driver, write strobe and data, command strobe and byte. */
  datatype TxIn = TxIn(ready: bool, write: bool, data: Byte, writeCommand: bool, command: Byte)

  const TX_RESET := Tx(0, false, false, false, 0, false)

  /** The rising edge of the driver's readiness. */
  predicate TxDone(t: Tx, ready: bool) { !t.wasReady && ready }

  /** What the upstream side sees. */
  predicate TxReady(t: Tx, ready: bool) { ready && !t.sendEsc && !t.sendData }

  function NextTx(t: Tx, i: TxIn): Tx {
    var latches := !t.sendData && (i.writeCommand || i.write);
    var byte := if i.writeCommand then i.command else i.data;
    Tx(if latches then byte else t.buffer,
       if TxDone(t, i.ready) && t.sendEsc then false
       else if latches then i.writeCommand || byte == ESC else t.sendEsc,
       if TxDone(t, i.ready) && !t.sendEsc && t.sendData then false else if latches then true else t.sendData,
       i.ready,
       if t.sendEsc then ESC else t.buffer,
       i.ready && !TxDone(t, i.ready) && (t.sendEsc || t.sendData))
  }

  class TxStuffer {
    var buffer: Byte
    var sendEsc: bool
    var sendData: bool
    var wasReady: bool
    var outData: Byte
    var outWrite: bool

    function State(): Tx
      reads this
    {
      Tx(buffer, sendEsc, sendData, wasReady, outData, outWrite)
    }

    constructor ()
      ensures State() == TX_RESET
    {
      buffer, sendEsc, sendData, wasReady, outData, outWrite := 0, false, false, false, 0, false;
    }

    /** One rising clock edge; every register is assigned from the values before the edge. */
    method Tick(i: TxIn) returns (readyO: bool)
      modifies this
      ensures State() == NextTx(old(State()), i) && readyO == TxReady(old(State()), i.ready)
    {
      var done, esc, sending := !wasReady && i.ready, sendEsc, sendData;
      readyO := i.ready && !sendEsc && !sendData;
      outWrite := i.ready && !done && (esc || sending);
      outData := if esc then ESC else buffer;
      if !sending {
        if i.writeCommand {
          buffer, sendData, sendEsc := i.command, true, true;
        } else if i.write {
          buffer, sendData, sendEsc := i.data, true, i.data == ESC;
        }
      }
      if done {
        if esc { sendEsc := false; } else if sending { sendData := false; }
      }
      wasReady := i.ready;
    }
  }

  // ---- The composition ---------------------------------------------------------------------------------

  /** Serializer, stuffing stage and driver, with the bytes the driver has latched so far. The
      driver is busy from the cycle after it latches a byte until its frame is finished. */
  datatype Path = Path(ser: Ser, tx: Tx, busy: bool, latched: seq<Byte>)

  /** One cycle: run strobe of the serializer, and whether the frame on the line ends. */
  datatype PathIn = PathIn(run: bool, finish: bool)

  function NextPath(maxBits: nat, bits: seq<bool>, length: nat, p: Path, i: PathIn): Path
    requires maxBits > 0 && length <= |bits|
  {
    var starts := !p.busy && p.tx.outWrite;
    Path(NextSer(maxBits, bits, length, p.ser, SerIn(i.run, TxReady(p.tx, !p.busy))),
         NextTx(p.tx, TxIn(!p.busy, p.ser.write, p.ser.byte, false, 0)),
         if p.busy then !i.finish else starts,
         if starts then p.latched + [p.tx.outData] else p.latched)
  }

  const PATH_RESET := Path(SER_RESET, TX_RESET, false, [])

  function RunPath(maxBits: nat, bits: seq<bool>, length: nat, p: Path, run: seq<PathIn>): Path
    requires maxBits > 0 && length <= |bits|
    decreases |run|
  {
    if |run| == 0 then p else RunPath(maxBits, bits, length, NextPath(maxBits, bits, length, p, run[0]), run[1..])
  }

  /** The bytes of `bs` as they appear on the line. */
  function Encoded(bs: seq<Byte>): seq<Byte> {
    if |bs| == 0 then [] else Encoded(bs[..|bs| - 1]) + StuffOne(Data(bs[|bs| - 1]))
  }

  // ---- The invariant ---------------------------------------------------------------------------------

  /** Bytes the stuffing stage has taken over: while the write strobe of the serializer is still
      up next to a byte in the stage, its counter has yet to move on. */
  function TakenOver(p: Path): nat {
    p.ser.count / 8 + if p.tx.sendData && p.ser.write then 1 else 0
  }

  /** The symbol the stage is sending: the escape byte first. */
  function Symbol(t: Tx): Byte {
    if t.sendEsc then ESC else t.buffer
  }

  /** The driver has latched the current symbol: it is busy with it, or has just finished. */
  predicate SymbolLatched(t: Tx, busy: bool) {
    busy || !t.wasReady
  }

  /** The part of the current byte's encoding that the driver has latched. */
  function PartLatched(t: Tx, busy: bool): seq<Byte> {
    if !t.sendData then []
    else if t.sendEsc then (if SymbolLatched(t, busy) then [ESC] else [])
    else (if t.buffer == ESC then [ESC] else []) + (if SymbolLatched(t, busy) then [t.buffer] else [])
  }

  predicate SerInvariant(bytes: seq<Byte>, length: nat, s: Ser) {
    && s.count % 8 == 0 && s.count / 8 <= |bytes|
    && (s.write ==> s.busy && s.count < length && s.count / 8 < |bytes| && s.byte == bytes[s.count / 8])
    && (s.done ==> s.count / 8 == |bytes|)
  }

  predicate TxInvariant(t: Tx) {
    (t.sendEsc ==> t.sendData && t.buffer == ESC) && (t.outWrite ==> t.sendData && t.wasReady && t.outData == Symbol(t))
  }

  predicate StageInvariant(bytes: seq<Byte>, length: nat, p: Path) {
    && SerInvariant(bytes, length, p.ser) && TxInvariant(p.tx)
    && (!p.tx.sendData ==> !p.busy)
    && TakenOver(p) <= |bytes| && (p.tx.sendData ==> TakenOver(p) > 0 && p.tx.buffer == bytes[TakenOver(p) - 1])
  }

  predicate PathInvariant(bytes: seq<Byte>, length: nat, p: Path) {
    && StageInvariant(bytes, length, p)
    && p.latched == Encoded(bytes[..TakenOver(p) - if p.tx.sendData then 1 else 0]) + PartLatched(p.tx, p.busy)
  }

  lemma SerStep(maxBits: nat, bits: seq<bool>, length: nat, s: Ser, i: SerIn)
    requires maxBits > 0 && length <= |bits| && NoWrap(maxBits, length)
    requires SerInvariant(Serialized(bits, length), length, s)
    ensures var n := NextSer(maxBits, bits, length, s, i);
      && SerInvariant(Serialized(bits, length), length, n)
      && n.count == (if s.write && !i.ready then s.count + 8 else s.count)
      && (n.write ==> i.ready) && (s.write && i.ready ==> n.write)
  {
    hide CounterRange, NoWrap, ByteOf;
    CountStep(maxBits, length, s.count);
    assert s.count < length ==> s.count / 8 < Octets(length);
    assert s.count >= length ==> s.count / 8 >= Octets(length);
    assert 8 * (s.count / 8) == s.count;
  }

  /** A finished symbol: either the escape byte, or the byte itself, whose encoding is then whole. */
  lemma EncodedOne(bytes: seq<Byte>, k: nat)
    requires k < |bytes|
    ensures Encoded(bytes[..k + 1]) == Encoded(bytes[..k]) + StuffOne(Data(bytes[k]))
  {
    assert bytes[..k + 1][..k] == bytes[..k];
  }

  lemma StageStep(maxBits: nat, bits: seq<bool>, length: nat, p: Path, i: PathIn)
    requires maxBits > 0 && length <= |bits| && NoWrap(maxBits, length)
    requires StageInvariant(Serialized(bits, length), length, p)
    ensures var q := NextPath(maxBits, bits, length, p, i);
      && StageInvariant(Serialized(bits, length), length, q)
      && TakenOver(q) == TakenOver(p) + if !p.tx.sendData && p.ser.write then 1 else 0
  {
    hide CounterRange, NoWrap, ByteOf, Serialized, NextSer;
    SerStep(maxBits, bits, length, p.ser, SerIn(i.run, TxReady(p.tx, !p.busy)));
    assert (p.ser.count + 8) / 8 == p.ser.count / 8 + 1;
    var q := NextPath(maxBits, bits, length, p, i);
    assert TakenOver(q) == TakenOver(p) + if !p.tx.sendData && p.ser.write then 1 else 0;
  }

  /** An empty stage stays empty or takes over a byte, of which nothing is latched yet. */
  lemma EmptyStageStep(maxBits: nat, bits: seq<bool>, length: nat, p: Path, i: PathIn)
    requires maxBits > 0 && length <= |bits| && NoWrap(maxBits, length)
    requires PathInvariant(Serialized(bits, length), length, p) && !p.tx.sendData
    ensures PathInvariant(Serialized(bits, length), length, NextPath(maxBits, bits, length, p, i))
  {
    StageStep(maxBits, bits, length, p, i);
    hide CounterRange, NoWrap, ByteOf, Serialized, NextSer, Encoded, TakenOver, SerInvariant;
  }

  /** A busy stage: the driver latches the symbol, or finishes it, or goes on. */
  lemma SymbolStep(t: Tx, busy: bool, i: TxIn, finish: bool)
    requires TxInvariant(t) && t.sendData && i.ready == !busy
    ensures var n, starts := NextTx(t, i), !busy && t.outWrite;
      && (starts ==> t.outData == Symbol(t))
      && (n.sendData ==> PartLatched(n, if busy then !finish else starts)
                         == PartLatched(t, busy) + if starts then [Symbol(t)] else [])
      && (!n.sendData ==> PartLatched(t, busy) == StuffOne(Data(t.buffer)) && !starts)
  {
  }

  lemma BusyStageStep(maxBits: nat, bits: seq<bool>, length: nat, p: Path, i: PathIn)
    requires maxBits > 0 && length <= |bits| && NoWrap(maxBits, length)
    requires PathInvariant(Serialized(bits, length), length, p) && p.tx.sendData
    ensures PathInvariant(Serialized(bits, length), length, NextPath(maxBits, bits, length, p, i))
  {
    hide CounterRange, NoWrap, ByteOf, Serialized, NextSer, Encoded, TakenOver, SerInvariant, PartLatched, StuffOne, NextTx, StageInvariant, Symbol;
    var bytes, k, q := Serialized(bits, length), TakenOver(p) - 1, NextPath(maxBits, bits, length, p, i);
    StageFacts(bytes, length, p);
    StageStep(maxBits, bits, length, p, i);
    EncodedOne(bytes, k);
    SymbolStep(p.tx, p.busy, TxIn(!p.busy, p.ser.write, p.ser.byte, false, 0), i.finish);
    EmptyPart(q.tx, q.busy);
    Associates(Encoded(bytes[..k]), PartLatched(p.tx, p.busy), [p.tx.outData]);
  }

  lemma StageFacts(bytes: seq<Byte>, length: nat, p: Path)
    requires StageInvariant(bytes, length, p) && p.tx.sendData
    ensures TxInvariant(p.tx) && 0 < TakenOver(p) <= |bytes| && p.tx.buffer == bytes[TakenOver(p) - 1]
  {
  }

  lemma EmptyPart(t: Tx, busy: bool)
    ensures !t.sendData ==> PartLatched(t, busy) == []
  {
  }

  lemma PathStep(maxBits: nat, bits: seq<bool>, length: nat, p: Path, i: PathIn)
    requires maxBits > 0 && length <= |bits| && NoWrap(maxBits, length)
    requires PathInvariant(Serialized(bits, length), length, p)
    ensures PathInvariant(Serialized(bits, length), length, NextPath(maxBits, bits, length, p, i))
  {
    if p.tx.sendData { BusyStageStep(maxBits, bits, length, p, i); } else { EmptyStageStep(maxBits, bits, length, p, i); }
  }

  /** Exactly once: over any run, whatever the frame times, the bytes that the driver has latched
      are a prefix of the stuffed encoding of the serialized bits, in order, and all of it once
      the serializer is done and the stage is empty. */
  lemma {:induction false} SentExactlyOnce(maxBits: nat, bits: seq<bool>, length: nat, p: Path, run: seq<PathIn>)
    requires maxBits > 0 && length <= |bits| && NoWrap(maxBits, length)
    requires PathInvariant(Serialized(bits, length), length, p)
    ensures var f, bytes := RunPath(maxBits, bits, length, p, run), Serialized(bits, length);
      && PathInvariant(bytes, length, f)
      && f.latched <= Encoded(bytes)
      && (f.ser.done && !f.tx.sendData ==> f.latched == Encoded(bytes))
    decreases |run|
  {
    hide PathInvariant, NextPath, NoWrap;
    if |run| == 0 {
      LatchedPrefix(Serialized(bits, length), length, p);
    } else {
      PathStep(maxBits, bits, length, p, run[0]);
      SentExactlyOnce(maxBits, bits, length, NextPath(maxBits, bits, length, p, run[0]), run[1..]);
    }
  }

  lemma {:induction false} EncodedPrefix(bytes: seq<Byte>, k: nat)
    requires k <= |bytes|
    ensures Encoded(bytes[..k]) <= Encoded(bytes)
    decreases |bytes| - k
  {
    if k == |bytes| {
      assert bytes[..k] == bytes;
    } else {
      EncodedOne(bytes, k);
      EncodedPrefix(bytes, k + 1);
    }
  }

  lemma LatchedPrefix(bytes: seq<Byte>, length: nat, p: Path)
    requires PathInvariant(bytes, length, p)
    ensures p.latched <= Encoded(bytes)
    ensures p.ser.done && !p.tx.sendData ==> p.latched == Encoded(bytes)
  {
    hide Encoded;
    var t := TakenOver(p);
    EncodedPrefix(bytes, t);
    if p.tx.sendData { EncodedOne(bytes, t - 1); } else { assert bytes[..|bytes|] == bytes; }
  }

  /** The path is idle after reset. */
  lemma ResetInvariant(bytes: seq<Byte>, length: nat)
    ensures PathInvariant(bytes, length, PATH_RESET)
  {
  }

  /** The encoding is the one the receiver undoes. */
  lemma {:induction false} EncodedIsStuffed(bs: seq<Byte>)
    ensures Encoded(bs) == Stuff(seq(|bs|, k requires 0 <= k < |bs| => Data(bs[k])))
    decreases |bs|
  {
    var ts := seq(|bs|, k requires 0 <= k < |bs| => Data(bs[k]));
    if |bs| > 0 {
      var front := bs[..|bs| - 1];
      EncodedIsStuffed(front);
      assert ts == seq(|front|, k requires 0 <= k < |front| => Data(front[k])) + [Data(bs[|bs| - 1])];
      StuffConcat(seq(|front|, k requires 0 <= k < |front| => Data(front[k])), Data(bs[|bs| - 1]));
    }
  }

  lemma {:induction false} StuffConcat(ts: seq<Token>, t: Token)
    ensures Stuff(ts + [t]) == Stuff(ts) + StuffOne(t)
    decreases |ts|
  {
    if |ts| == 0 {
      assert ts + [t] == [t] && [t][1..] == [];
      assert StuffOne(t) + [] == StuffOne(t);
    } else {
      assert (ts + [t])[1..] == ts[1..] + [t];
      StuffConcat(ts[1..], t);
      assert StuffOne(ts[0]) + (Stuff(ts[1..]) + StuffOne(t)) == Stuff(ts) + StuffOne(t);
    }
  }

  /** The driver of the path is the line transmitter: it takes a byte exactly when it is idle and
      strobed, and its frame ends at the tick of the tenth bit. */
  lemma DriverIsTransmitter(S: nat, s: UartFrame.Sender, p: Path, run: bool)
    requires S > 0 && UartFrame.ValidSender(s) && s.sending == p.busy
    ensures var n := UartFrame.NextSender(S, s, UartFrame.SendIn(p.tx.outWrite, p.tx.outData));
      && (if p.busy then !(s.tick && s.bitnum == 9) else p.tx.outWrite) == n.sending
      && (!p.busy && p.tx.outWrite ==> n.frame == UartFrame.FrameOf(p.tx.outData))
      && UartFrame.Taken(S, s, [UartFrame.SendIn(p.tx.outWrite, p.tx.outData)]) == (if !p.busy && p.tx.outWrite then [p.tx.outData] else [])
  {
    hide UartFrame.FrameOf;
    var i := UartFrame.SendIn(p.tx.outWrite, p.tx.outData);
    assert [i][1..] == [];
  }
}
