/** Byte stuffing: the token stream on the wire, and the receiver's unstuffing state machine. */
module EscapeCoding {
  import opened Words
  import opened RingBuffer

  const ESC: Byte := 0xA0

  /** What one side says to the other: a data byte or a command byte. */
  datatype Token = Data(b: Byte) | Command(c: Byte)

  // ---- The encoding ------------------------------------------------------------------------------

  function StuffOne(t: Token): seq<Byte> {
    match t
    case Data(b) => if b == ESC then [ESC, ESC] else [b]
    case Command(c) => [ESC, c]
  }

  function Stuff(ts: seq<Token>): seq<Byte> {
    if |ts| == 0 then [] else StuffOne(ts[0]) + Stuff(ts[1..])
  }

  /** Tokens read so far, and whether an escape byte is waiting for its successor. */
  datatype Parse = Parse(tokens: seq<Token>, pending: bool)

  function Feed(p: Parse, b: Byte): Parse {
    if p.pending then Parse(p.tokens + [if b == ESC then Data(ESC) else Command(b)], false)
    else if b == ESC then Parse(p.tokens, true)
    else Parse(p.tokens + [Data(b)], false)
  }

  function Unstuff(p: Parse, bs: seq<Byte>): Parse
    decreases |bs|
  {
    if |bs| == 0 then p else Unstuff(Feed(p, bs[0]), bs[1..])
  }

  const NOTHING := Parse([], false)

  lemma {:induction false} UnstuffConcat(p: Parse, a: seq<Byte>, b: seq<Byte>)
    ensures Unstuff(p, a + b) == Unstuff(Unstuff(p, a), b)
    decreases |a|
  {
    if |a| == 0 {
      assert a + b == b;
    } else {
      assert (a + b)[0] == a[0] && (a + b)[1..] == a[1..] + b;
      UnstuffConcat(Feed(p, a[0]), a[1..], b);
    }
  }

  /** What a token looks like to the receiver: a command whose byte is the escape byte reads as
      that data byte. */
  function Seen(t: Token): Token {
    if t == Command(ESC) then Data(ESC) else t
  }

  function SeenAll(ts: seq<Token>): (r: seq<Token>)
    ensures |r| == |ts| && forall k :: 0 <= k < |ts| ==> r[k] == Seen(ts[k])
  {
    seq(|ts|, k requires 0 <= k < |ts| => Seen(ts[k]))
  }

  lemma UnstuffOne(done: seq<Token>, t: Token)
    ensures Unstuff(Parse(done, false), StuffOne(t)) == Parse(done + [Seen(t)], false)
  {
    var p, one := Parse(done, false), StuffOne(t);
    if |one| == 2 {
      assert one[1..] == [one[1]] && one[1..][1..] == [];
      assert Unstuff(Feed(p, ESC), [one[1]]) == Feed(Feed(p, ESC), one[1]);
    } else {
      assert one[1..] == [];
    }
  }

  lemma SeenSplit(ts: seq<Token>)
    requires |ts| > 0
    ensures SeenAll(ts) == [Seen(ts[0])] + SeenAll(ts[1..])
  {
    hide Seen;
  }

  lemma {:induction false} UnstuffStuff(done: seq<Token>, ts: seq<Token>)
    ensures Unstuff(Parse(done, false), Stuff(ts)) == Parse(done + SeenAll(ts), false)
    decreases |ts|
  {
    hide SeenAll, StuffOne, Seen, Feed;
    if |ts| == 0 {
      assert done + SeenAll(ts) == done;
    } else {
      hide Unstuff;
      var p, one := Parse(done, false), StuffOne(ts[0]);
      UnstuffConcat(p, one, Stuff(ts[1..]));
      UnstuffOne(done, ts[0]);
      UnstuffStuff(done + [Seen(ts[0])], ts[1..]);
      SeenSplit(ts);
      Associates(done, [Seen(ts[0])], SeenAll(ts[1..]));
    }
  }

  /** The round trip holds exactly for streams without a command byte equal to the escape byte. */
  lemma StuffRoundTrip(ts: seq<Token>)
    ensures Unstuff(NOTHING, Stuff(ts)) == Parse(ts, false) <==> Command(ESC) !in ts
  {
    UnstuffStuff([], ts);
    assert [] + SeenAll(ts) == SeenAll(ts);
    if Command(ESC) in ts {
      var k :| 0 <= k < |ts| && ts[k] == Command(ESC);
      assert SeenAll(ts)[k] != ts[k];
    } else {
      assert SeenAll(ts) == ts;
    }
  }

  /** Command bytes are {command, address}: with the command codes in use none is the escape byte. */
  lemma CommandBytesAreNotEscape(command: nat, address: nat)
    requires command in {0, 1, 2, 3, 7} && address < 32
    ensures command * 32 + address != ESC
  {
  }

  // ---- The receiver ----------------------------------------------------------------------------

  datatype RxPhase = RxIdle | RxData | RxEscape | RxCommand

  datatype Rx = Rx(phase: RxPhase, data: Byte)

  /** One cycle: is the buffer empty, its head, and the read strobe of the TAP. */
  datatype RxIn = RxIn(empty: bool, head: Byte, read: bool)

  const RX_RESET := Rx(RxIdle, 0)

  /** Read strobe to the buffer. */
  predicate RxReads(r: Rx, i: RxIn) {
    (r.phase.RxIdle? || r.phase.RxEscape?) && !i.empty
  }

  function NextRx(r: Rx, i: RxIn): Rx {
    match r.phase
    case RxIdle => if i.empty then r else Rx(if i.head == ESC then RxEscape else RxData, i.head)
    case RxEscape => if i.empty then r else Rx(if i.head == ESC then RxData else RxCommand, i.head)
    case RxData => if i.read then Rx(RxIdle, r.data) else r
    case RxCommand => if i.read then Rx(RxIdle, r.data) else r
  }

  /** What the TAP sees: nothing, a data byte or a command. */
  function Shown(r: Rx): seq<Token> {
    if r.phase.RxData? then [Data(r.data)] else if r.phase.RxCommand? then [Command(r.data)] else []
  }

  class RxUnstuffer {
    var phase: RxPhase
    var data: Byte

    function State(): Rx
      reads this
    {
      Rx(phase, data)
    }

    constructor ()
      ensures State() == RX_RESET
    {
      phase, data := RxIdle, 0;
    }

    /** One rising clock edge; outputs the read strobe and what is shown to the TAP. */
    method Tick(i: RxIn) returns (readO: bool, emptyO: bool, commandO: bool, dataO: Byte)
      modifies this
      ensures State() == NextRx(old(State()), i) && readO == RxReads(old(State()), i)
      ensures emptyO == (Shown(old(State())) == [])
      ensures !emptyO ==> Shown(old(State())) == [if commandO then Command(dataO) else Data(dataO)]
    {
      readO, emptyO, commandO, dataO := false, true, false, data;
      match phase {
        case RxIdle =>
          if !i.empty {
            readO, data := true, i.head;
            phase := if i.head == ESC then RxEscape else RxData;
          }
        case RxData =>
          emptyO := false;
          if i.read { phase := RxIdle; }
        case RxEscape =>
          if !i.empty {
            readO, data := true, i.head;
            phase := if i.head == ESC then RxData else RxCommand;
          }
        case RxCommand =>
          emptyO, commandO := false, true;
          if i.read { phase := RxIdle; }
      }
    }
  }

  /** On the wire 0xA0 announces a command byte, and stands for itself when it comes twice; the receiver
      shows what it has read so. */
  lemma WireFormat(b: Byte)
    ensures Stuff([Data(b)]) == (if b == 0xa0 then [0xa0, 0xa0] else [b]) && Stuff([Command(b)]) == [0xa0, b]
    ensures var r := NextRx(RX_RESET, RxIn(false, b, false)); b != 0xa0 ==> r == Rx(RxData, b) && Shown(r) == [Data(b)]
    ensures var r := NextRx(NextRx(RX_RESET, RxIn(false, 0xa0, false)), RxIn(false, b, false));
      r == (if b == 0xa0 then Rx(RxData, 0xa0) else Rx(RxCommand, b)) && Shown(r) == [if b == 0xa0 then Data(0xa0) else Command(b)]
  {
    assert [Data(b)][1..] == [] && [Command(b)][1..] == [];
  }

  // ---- Whole runs of the receiver -------------------------------------------------------------------

  function RunRx(r: Rx, run: seq<RxIn>): Rx
    decreases |run|
  {
    if |run| == 0 then r else RunRx(NextRx(r, run[0]), run[1..])
  }

  /** Bytes taken from the buffer. */
  function Popped(r: Rx, run: seq<RxIn>): seq<Byte>
    decreases |run|
  {
    if |run| == 0 then []
    else (if RxReads(r, run[0]) then [run[0].head] else []) + Popped(NextRx(r, run[0]), run[1..])
  }

  /** Tokens the TAP has read. */
  function Delivered(r: Rx, run: seq<RxIn>): seq<Token>
    decreases |run|
  {
    if |run| == 0 then []
    else (if run[0].read then Shown(r) else []) + Delivered(NextRx(r, run[0]), run[1..])
  }

  /** One clock: the tokens that the bytes taken so far stand for are those read and the one shown. */
  lemma ReceiverStep(r: Rx, i: RxIn, done: seq<Token>)
    ensures var p := Parse(done + Shown(r), r.phase.RxEscape?);
      (if RxReads(r, i) then Feed(p, i.head) else p)
      == Parse(done + (if i.read then Shown(r) else []) + Shown(NextRx(r, i)), NextRx(r, i).phase.RxEscape?)
  {
    assert done + [] == done;
    assert r.phase.RxData? || r.phase.RxCommand? ==> done + Shown(r) + [] == done + [] + Shown(r);
    assert r.phase.RxEscape? && RxReads(r, i) ==> done + [] + Shown(NextRx(r, i)) == done + Shown(NextRx(r, i));
  }

  /** For any pattern of empty cycles and any read delays: what was shown at the start and is read
      from the bytes that go in is what is delivered and shown at the end; the receiver waits
      for a second byte exactly if an escape byte is pending. */
  lemma {:induction false} DeliversTokens(r: Rx, run: seq<RxIn>, done: seq<Token>)
    ensures var f := RunRx(r, run);
      Unstuff(Parse(done + Shown(r), r.phase.RxEscape?), Popped(r, run))
      == Parse(done + Delivered(r, run) + Shown(f), f.phase.RxEscape?)
    decreases |run|
  {
    hide Feed, NextRx, RxReads, Shown;
    if |run| == 0 {
      assert done + [] == done;
    } else {
      var i, next := run[0], NextRx(r, run[0]);
      var out := if i.read then Shown(r) else [];
      ReceiverStep(r, i, done);
      DeliversTokens(next, run[1..], done + out);
      Associates(done, out, Delivered(next, run[1..]));
      if RxReads(r, i) {
        assert Popped(r, run)[1..] == Popped(next, run[1..]);
      } else {
        assert Popped(r, run) == Popped(next, run[1..]);
      }
    }
  }

  /** Tokens that have been read are never taken back. */
  lemma {:induction false} UnstuffGrows(p: Parse, bs: seq<Byte>)
    ensures p.tokens <= Unstuff(p, bs).tokens
    decreases |bs|
  {
    if |bs| > 0 { UnstuffGrows(Feed(p, bs[0]), bs[1..]); }
  }

  /** A stuffed stream comes out as it went in: at any time what was delivered and is shown is a
      prefix of the tokens that were stuffed, and all of them once all bytes are taken. */
  lemma ReceiverRoundTrip(ts: seq<Token>, run: seq<RxIn>)
    requires Command(ESC) !in ts && Popped(RX_RESET, run) <= Stuff(ts)
    ensures Delivered(RX_RESET, run) + Shown(RunRx(RX_RESET, run)) <= ts
    ensures Popped(RX_RESET, run) == Stuff(ts) ==>
      Delivered(RX_RESET, run) + Shown(RunRx(RX_RESET, run)) == ts && !RunRx(RX_RESET, run).phase.RxEscape?
  {
    var f, bytes := RunRx(RX_RESET, run), Popped(RX_RESET, run);
    DeliversTokens(RX_RESET, run, []);
    StuffRoundTrip(ts);
    assert [] + Shown(RX_RESET) == [];
    assert [] + Delivered(RX_RESET, run) + Shown(f) == Delivered(RX_RESET, run) + Shown(f);
    assert Stuff(ts) == bytes + Stuff(ts)[|bytes|..];
    UnstuffConcat(NOTHING, bytes, Stuff(ts)[|bytes|..]);
    UnstuffGrows(Unstuff(NOTHING, bytes), Stuff(ts)[|bytes|..]);
  }

  /** The receiver never reads an empty buffer, so the buffer behaves as the queue. */
  lemma ReceiverKeepsBufferExact(r: Rx, i: RxIn, q: seq<Byte>, we: bool, datum: Byte)
    requires i.empty == (|q| == 0) && (|q| > 0 ==> i.head == q[0])
    ensures !Overlooks(q, Request(we, datum, RxReads(r, i)))
  {
  }
}
