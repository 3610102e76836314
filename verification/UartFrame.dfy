/** Byte frames on the serial line: the transmitter's waveform and the receiver's sampling. */
module UartFrame {
  import opened Words
  import opened Serdes

  // ---- The transmitter ---------------------------------------------------------------------------

  /** `baud` counts clock cycles of a bit, `sample` the bits until a correction cycle. */
  datatype Sender = Sender(
    sending: bool, tick: bool, wait: bool, baud: nat, sample: nat, frame: seq<bool>, bitnum: nat, tx: bool)

  datatype SendIn = SendIn(start: bool, data: Byte)

  /** Start bit, eight data bits from the lowest, stop bit. */
  function FrameOf(b: Byte): (f: seq<bool>)
    ensures |f| == 10 && !f[0] && f[9]
  {
    [false] + BitsOf(b, 8) + [true]
  }

  /** The bits of a frame: low, bits 0 to 7 of the byte, high. */
  lemma FrameBits(b: Byte, k: nat)
    requires k < 10
    ensures FrameOf(b)[k] <==> if k == 0 then false else if k == 9 then true else b / Pow2(k - 1) % 2 == 1
  {
    if 1 <= k < 9 { BitsByDivision(b, 8, k - 1); }
  }

  // The rates are 32-bit signed integers; the interval parameters are unsigned.

  const TWO31: int := 0x8000_0000
  const TWO32: int := 0x1_0000_0000

  function Signed32(x: nat): int {
    if x % TWO32 < TWO31 then x % TWO32 else x % TWO32 - TWO32
  }

  /** Division that truncates towards zero. */
  function Quotient(a: int, b: nat): int
    requires b > 0
  {
    if a >= 0 then a / b else -((-a) / b)
  }

  /** The transmitter's remainder parameter: ten times the clock rate, divided by the baud rate and
      by ten again. */
  function RemainderParameter(clock: nat, rate: nat): nat
    requires rate > 0
  {
    Quotient(Quotient(Signed32(clock * 10), rate), 10) % TWO32
  }

  /** It equals the interval exactly as long as the product does not overflow. */
  lemma SenderRemainder(clock: nat, rate: nat)
    requires 0 < rate && clock < TWO31 && clock / rate >= 10
    ensures RemainderParameter(clock, rate) == clock / rate <==> clock * 10 < TWO31
  {
    var v, q := Signed32(clock * 10), clock / rate;
    DivisionBounds(clock, rate);
    SignedBounds(clock * 10);
    TenIntervals(clock, rate);
    hide Signed32, Quotient;
    if v < 0 {
      NegativeQuotient(v, rate);
    } else {
      PositiveQuotient(v, rate);
      if clock * 10 < TWO31 { WithoutOverflow(clock, rate); } else { FallsShort(v, q, rate); }
    }
  }

  lemma PositiveQuotient(v: nat, rate: nat)
    requires rate > 0 && v < TWO31
    ensures Quotient(Quotient(v, rate), 10) % TWO32 == v / rate / 10
  {
    DivisionBounds(v, rate);
  }

  lemma SignedBounds(x: nat)
    requires x < 10 * TWO31
    ensures -TWO31 <= Signed32(x) < TWO31
    ensures x < TWO31 ==> Signed32(x) == x
    ensures x >= TWO31 && Signed32(x) >= 0 ==> Signed32(x) + TWO32 <= x
  {
  }

  lemma DivisionBounds(n: nat, m: nat)
    requires m > 0
    ensures n == n / m * m + n % m && n / m <= n
  {
    var q := n / m;
    Scales(1, m, q);
    assert m * q == q * m;
  }

  lemma TenIntervals(clock: nat, rate: nat)
    requires rate > 0 && clock / rate >= 10
    ensures rate * 10 <= clock
  {
    DivisionBounds(clock, rate);
    Scales(10, clock / rate, rate);
  }

  /** The quotient of a negative product is zero or, read as unsigned, beyond any interval. */
  lemma NegativeQuotient(a: int, rate: nat)
    requires rate > 0 && -TWO31 <= a < 0
    ensures var t := Quotient(Quotient(a, rate), 10) % TWO32; t == 0 || t >= TWO31
  {
    var m := (-a) / rate;
    DivisionBounds(-a, rate);
    assert Quotient(a, rate) == -m;
    assert Quotient(-m, 10) == -(m / 10);
    AboveHalf(m / 10);
  }

  lemma AboveHalf(n: nat)
    requires n <= TWO31
    ensures (0 - n as int) % TWO32 == if n == 0 then 0 else TWO32 - n
  {
    var x := 0 - n as int;
    var q := x / TWO32;
    assert x == q * TWO32 + x % TWO32;
    assert q <= 0 && q >= -1;
  }

  /** The quotient of an overflown product is too small. */
  lemma FallsShort(v: nat, q: nat, rate: nat)
    requires rate > 0 && v < 10 * (q * rate)
    ensures v / rate / 10 < q
  {
    var p := v / rate;
    DivisionBounds(v, rate);
    if p >= 10 * q { Scales(10 * q, p, rate); }
    assert (10 * q) * rate == 10 * (q * rate);
  }

  lemma Scales(x: nat, y: nat, m: nat)
    requires x <= y
    ensures x * m <= y * m
  {
    assert (y - x) * m >= 0;
  }

  lemma WithoutOverflow(clock: nat, rate: nat)
    requires rate > 0
    ensures clock * 10 / rate / 10 == clock / rate
  {
    var q, r := clock / rate, clock % rate;
    var a := r * 10 / rate;
    assert clock == q * rate + r;
    RemainderParts(q, r, a, rate);
  }

  lemma RemainderParts(q: nat, r: nat, a: nat, rate: nat)
    requires rate > 0 && r < rate && a == r * 10 / rate
    ensures (q * rate + r) * 10 / rate / 10 == q
  {
    var b := r * 10 % rate;
    assert r * 10 == a * rate + b;
    assert a >= 10 ==> a * rate >= 10 * rate;
    assert (q * rate + r) * 10 == (q * 10 + a) * rate + b;
    SplitAt(q * 10 + a, b, rate);
    SplitAt(q, a, 10);
  }

  predicate ValidSender(s: Sender) {
    |s.frame| == 10 && s.bitnum < 10
  }

  function NextSender(S: nat, s: Sender, i: SendIn): (n: Sender)
    requires S > 0 && ValidSender(s)
    ensures ValidSender(n)
  {
    if !s.sending then
      Sender(i.start, false, false, S - 1, S - 1, if i.start then FrameOf(i.data) else s.frame,
             if i.start then 0 else s.bitnum, true)
    else
      var tx, ends := s.frame[s.bitnum], s.tick && s.bitnum == 9;
      var bitnum := if s.tick && !ends then s.bitnum + 1 else s.bitnum;
      if s.wait then Sender(!ends, true, false, S - 1, S - 1, s.frame, bitnum, tx)
      else if s.baud > 0 then Sender(!ends, false, false, s.baud - 1, s.sample, s.frame, bitnum, tx)
      else if s.sample > 0 then Sender(!ends, true, false, S - 1, s.sample - 1, s.frame, bitnum, tx)
      else Sender(!ends, false, true, 0, 0, s.frame, bitnum, tx)
  }

  /** The transmitter as a clocked object (no pause requests, first channel). */
  class UartTx {
    const S: nat
    var sending: bool
    var tick: bool
    var wait: bool
    var baud: nat
    var sample: nat
    var frame: seq<bool>
    var bitnum: nat
    var tx: bool

    function State(): Sender
      reads this
    {
      Sender(sending, tick, wait, baud, sample, frame, bitnum, tx)
    }

    ghost predicate Valid()
      reads this
    {
      S > 0 && ValidSender(State())
    }

    constructor (S: nat)
      requires S > 0
      ensures Valid() && this.S == S && State() == SenderReset(S)
    {
      this.S := S;
      sending, tick, wait, baud, sample := false, false, false, S - 1, S - 1;
      frame, bitnum, tx := seq(10, _ => false), 0, true;
    }

    /** The baud generator, held while the line is idle. */
    method CountBaud()
      requires Valid()
      modifies this`tick, this`wait, this`baud, this`sample
      ensures Valid()
      ensures !sending ==> (tick, wait, baud, sample) == (false, false, S - 1, S - 1)
      ensures sending ==> forall i :: State() == NextSender(S, old(State()), i)
                                               .(sending := sending, frame := frame, bitnum := bitnum, tx := tx)
    {
      if !sending {
        tick, wait, baud, sample := false, false, S - 1, S - 1;
      } else if wait {
        tick, wait, sample, baud := true, false, S - 1, S - 1;
      } else {
        tick := false;
        if baud > 0 {
          baud := baud - 1;
        } else if sample > 0 {
          tick, baud, sample := true, S - 1, sample - 1;
        } else {
          wait := true;
        }
      }
    }

    /** One rising clock edge; the frame logic sees the tick from before the edge. */
    method Tick(i: SendIn) returns (busy: bool)
      requires Valid()
      modifies this
      ensures Valid() && busy == old(sending) && State() == NextSender(S, old(State()), i)
    {
      hide FrameOf;
      busy := sending;
      var ticked := tick;
      CountBaud();
      if !busy {
        tx := true;
        if i.start { bitnum, frame, sending := 0, FrameOf(i.data), true; }
      } else {
        tx := frame[bitnum];
        if ticked {
          if bitnum == 9 { sending := false; } else { bitnum := bitnum + 1; }
        }
      }
    }
  }

  function SenderReset(S: nat): Sender
    requires S > 0
  {
    Sender(false, false, false, S - 1, S - 1, seq(10, _ => false), 0, true)
  }

  predicate Idle(s: Sender) {
    ValidSender(s) && !s.sending && s.tx
  }

  function RunSender(S: nat, s: Sender, ins: seq<SendIn>): Sender
    requires S > 0 && ValidSender(s)
    decreases |ins|
  {
    if |ins| == 0 then s else RunSender(S, NextSender(S, s, ins[0]), ins[1..])
  }

  /** The line, one value a cycle. */
  function Line(S: nat, s: Sender, ins: seq<SendIn>): (w: seq<bool>)
    requires S > 0 && ValidSender(s)
    ensures |w| == |ins|
    decreases |ins|
  {
    if |ins| == 0 then [] else [s.tx] + Line(S, NextSender(S, s, ins[0]), ins[1..])
  }

  /** The bytes the transmitter takes: those offered while it is idle. */
  function Taken(S: nat, s: Sender, ins: seq<SendIn>): seq<Byte>
    requires S > 0 && ValidSender(s)
    decreases |ins|
  {
    if |ins| == 0 then []
    else (if !s.sending && ins[0].start then [ins[0].data] else []) + Taken(S, NextSender(S, s, ins[0]), ins[1..])
  }

  lemma {:induction false} RunsConcat(S: nat, s: Sender, a: seq<SendIn>, b: seq<SendIn>)
    requires S > 0 && ValidSender(s)
    ensures ValidSender(RunSender(S, s, a))
    ensures Line(S, s, a + b) == Line(S, s, a) + Line(S, RunSender(S, s, a), b)
    ensures Taken(S, s, a + b) == Taken(S, s, a) + Taken(S, RunSender(S, s, a), b)
    ensures RunSender(S, s, a + b) == RunSender(S, RunSender(S, s, a), b)
    decreases |a|
  {
    hide NextSender;
    if |a| == 0 {
      assert a + b == b;
    } else {
      assert (a + b)[1..] == a[1..] + b && (a + b)[0] == a[0];
      RunsConcat(S, NextSender(S, s, a[0]), a[1..], b);
    }
  }

  // ---- The waveform of a frame --------------------------------------------------------------------

  /** Bit k of a frame on the line: the start bit lasts one cycle longer than the others. */
  function FrameWave(S: nat, f: seq<bool>): (w: seq<bool>)
    requires S > 0 && |f| == 10
    ensures |w| == 10 * S
  {
    seq(10 * S, j requires 0 <= j < 10 * S => f[FrameIndex(S, j)])
  }

  function FrameIndex(S: nat, j: nat): (k: nat)
    requires S > 0 && j < 10 * S
    ensures k < 10
  {
    if j == 0 then 0 else (IndexBound(S, j - 1); (j - 1) / S)
  }

  lemma IndexBound(S: nat, j: nat)
    requires S > 0 && j < 10 * S
    ensures j / S < 10
  {
    var q := j / S;
    assert j == q * S + j % S;
    assert q >= 10 ==> q * S >= 10 * S;
  }

  lemma FrameIndexAt(S: nat, k: nat, r: nat)
    requires r < S && k < 10
    ensures k * S + r + 1 < 10 * S + 1
    ensures k * S + r + 1 < 10 * S ==> FrameIndex(S, k * S + r + 1) == k
  {
    assert k * S <= 9 * S;
    SplitAt(k, r, S);
  }

  /** The line of a frame: low in its first cycle, then S cycles of the start bit, of each data bit from
      the lowest on, and of the stop bit, which lacks its last cycle. */
  lemma WaveShowsByte(S: nat, b: Byte, k: nat, r: nat, at: nat)
    requires S > 0 && k < 10 && r < S && at == k * S + r + 1 && at < 10 * S
    ensures !FrameWave(S, FrameOf(b))[0]
    ensures FrameWave(S, FrameOf(b))[at] <==> if k == 0 then false else if k == 9 then true else b / Pow2(k - 1) % 2 == 1
  {
    hide FrameOf, Pow2;
    FrameBits(b, 0);
    FrameBits(b, k);
    FrameIndexAt(S, k, r);
  }

  /** The transmitter `j` cycles into bit interval `k` of a frame. */
  function SendingAt(S: nat, f: seq<bool>, k: nat, j: nat): (s: Sender)
    requires 10 <= S && |f| == 10 && k <= 10 && j < S && (k == 10 ==> j == 0 && S > 10)
    ensures ValidSender(s)
  {
    Sender(true, j == 0 && k > 0, false, S - 1 - j, S - 1 - k, f, if j == 0 && k > 0 then k - 1 else k,
           if k == 0 && j == 0 then true else if j <= 1 && k > 0 then f[k - 1] else f[k])
  }

  /** One cycle further. */
  lemma SendingStep(S: nat, f: seq<bool>, k: nat, j: nat, i: SendIn)
    requires 10 <= S && |f| == 10 && k < 10 && j < S && !(S == 10 && k == 9 && j == 9)
    ensures NextSender(S, SendingAt(S, f, k, j), i) == if j + 1 < S then SendingAt(S, f, k, j + 1) else SendingAt(S, f, k + 1, 0)
  {
  }

  /** Cycles from the start of a frame to the next idle cycle. With the shortest interval the last
      bit meets a correction cycle. */
  function SendTime(S: nat): nat {
    if S == 10 then 10 * S + 2 else 10 * S + 1
  }

  function Ones(n: nat): seq<bool> {
    seq(n, _ => true)
  }

  /** The line value `pos` cycles after the start of a frame. */
  function LineAt(S: nat, f: seq<bool>, pos: nat): bool
    requires S > 0 && |f| == 10 && pos <= 10 * S
  {
    if pos == 0 then true else f[FrameIndex(S, pos - 1)]
  }

  lemma SendingShows(S: nat, f: seq<bool>, k: nat, j: nat)
    requires 10 <= S && |f| == 10 && k < 10 && j < S
    ensures k * S + j < 10 * S
    ensures SendingAt(S, f, k, j).tx == LineAt(S, f, k * S + j)
  {
    hide FrameIndex;
    InFrame(S, k, j);
    if j >= 2 {
      FrameIndexAt(S, k, j - 2);
    } else if k > 0 {
      assert k * S == (k - 1) * S + S;
      FrameIndexAt(S, k - 1, S + j - 2);
    } else {
      assert k * S + j == j;
      FirstIndex(S);
    }
  }

  lemma InFrame(S: nat, k: nat, j: nat)
    requires S > 0 && k < 10 && j < S
    ensures k * S + j < 10 * S
  {
    assert (9 - k) * S >= 0;
  }

  lemma FirstIndex(S: nat)
    requires S > 0
    ensures FrameIndex(S, 0) == 0
  {
  }

  /** The line values of a frame from `pos` on, up to the last cycle of the last interval. */
  function Rest(S: nat, f: seq<bool>, pos: nat): (w: seq<bool>)
    requires S > 0 && |f| == 10 && pos < 10 * S
    ensures |w| == 10 * S - 1 - pos
  {
    seq(10 * S - 1 - pos, n requires 0 <= n < 10 * S - 1 - pos => LineAt(S, f, pos + n))
  }

  lemma RestSplits(S: nat, f: seq<bool>, pos: nat)
    requires S > 0 && |f| == 10 && pos + 1 < 10 * S
    ensures Rest(S, f, pos) == [LineAt(S, f, pos)] + Rest(S, f, pos + 1)
  {
    hide LineAt;
  }

  lemma RestEnds(S: nat, f: seq<bool>)
    requires S > 0 && |f| == 10
    ensures Rest(S, f, 10 * S - 1) == []
  {
    hide LineAt;
  }

  /** Where the cycle after (k, j) stands. */
  lemma NextPosition(S: nat, k: nat, j: nat)
    requires 10 <= S && j < S && k < 10 && k * S + j + 1 < 10 * S
    ensures !(S == 10 && k == 9 && j == 9) && (j + 1 == S ==> k < 9 && (k + 1) * S + 0 == k * S + j + 1)
  {
    NotLastPosition(S, k, j);
    assert (k + 1) * S == k * S + S;
  }

  /** From bit interval `k` on to the last cycle of the last interval. */
  lemma {:induction false} SendsRest(S: nat, f: seq<bool>, k: nat, j: nat, pos: nat, ins: seq<SendIn>)
    requires 10 <= S && |f| == 10 && k < 10 && j < S && pos == k * S + j && pos + |ins| == 10 * S - 1
    ensures RunSender(S, SendingAt(S, f, k, j), ins) == SendingAt(S, f, 9, S - 1)
    ensures Line(S, SendingAt(S, f, k, j), ins) == Rest(S, f, pos) && Taken(S, SendingAt(S, f, k, j), ins) == []
    decreases |ins|
  {
    hide LineAt, NextSender, Rest, SendingAt;
    if |ins| == 0 {
      LastPosition(S, k, j);
      RestEnds(S, f);
    } else {
      hide RunSender, Line, Taken;
      SendingShows(S, f, k, j);
      NextPosition(S, k, j);
      SendingStep(S, f, k, j, ins[0]);
      SendsOn(S, f, k, j, ins);
      RestSplits(S, f, pos);
      if j + 1 < S {
        SendsRest(S, f, k, j + 1, pos + 1, ins[1..]);
      } else {
        SendsRest(S, f, k + 1, 0, pos + 1, ins[1..]);
      }
    }
  }

  lemma SendsOn(S: nat, f: seq<bool>, k: nat, j: nat, ins: seq<SendIn>)
    requires 10 <= S && |f| == 10 && k < 10 && j < S && |ins| > 0
    ensures var s := SendingAt(S, f, k, j); var n := NextSender(S, s, ins[0]);
      && Line(S, s, ins) == [s.tx] + Line(S, n, ins[1..]) && RunSender(S, s, ins) == RunSender(S, n, ins[1..])
      && Taken(S, s, ins) == Taken(S, n, ins[1..])
  {
    OneCycle(S, SendingAt(S, f, k, j), ins);
  }

  lemma LastPosition(S: nat, k: nat, j: nat)
    requires S > 0 && j < S && k < 10 && k * S + j == 10 * S - 1
    ensures k == 9 && j == S - 1
  {
    assert k < 9 ==> k * S <= 8 * S;
  }

  lemma NotLastPosition(S: nat, k: nat, j: nat)
    requires S > 0 && j < S && k < 10 && k * S + j < 10 * S - 1
    ensures !(k == 9 && j == S - 1)
    ensures j + 1 == S ==> k < 9
  {
    assert k == 9 ==> k * S == 9 * S;
  }

  /** The last cycles of a frame, with the correction cycle of the shortest interval. */
  lemma SendsEnd(S: nat, f: seq<bool>, ins: seq<SendIn>)
    requires 10 <= S && |f| == 10 && f[9] && |ins| == if S == 10 then 3 else 2
    ensures Line(S, SendingAt(S, f, 9, S - 1), ins) == Ones(|ins|)
    ensures Idle(RunSender(S, SendingAt(S, f, 9, S - 1), ins)) && Taken(S, SendingAt(S, f, 9, S - 1), ins) == []
  {
    var s0 := SendingAt(S, f, 9, S - 1);
    var s1 := NextSender(S, s0, ins[0]);
    var s2 := NextSender(S, s1, ins[1]);
    OneCycle(S, s0, ins);
    OneCycle(S, s1, ins[1..]);
    if S == 10 {
      OneCycle(S, s2, ins[1..][1..]);
      assert Line(S, s0, ins) == [s0.tx] + ([s1.tx] + ([s2.tx] + []));
    } else {
      assert Line(S, s0, ins) == [s0.tx] + ([s1.tx] + []);
    }
  }

  lemma OneCycle(S: nat, s: Sender, ins: seq<SendIn>)
    requires S > 0 && ValidSender(s) && |ins| > 0
    ensures var n := NextSender(S, s, ins[0]);
      && Line(S, s, ins) == [s.tx] + Line(S, n, ins[1..]) && RunSender(S, s, ins) == RunSender(S, n, ins[1..])
      && (s.sending ==> Taken(S, s, ins) == Taken(S, n, ins[1..]))
      && (|ins| == 1 ==> Line(S, n, ins[1..]) == [] && RunSender(S, n, ins[1..]) == n && Taken(S, n, ins[1..]) == [])
  {
    assert [] + Taken(S, NextSender(S, s, ins[0]), ins[1..]) == Taken(S, NextSender(S, s, ins[0]), ins[1..]);
  }

  /** Cycles from a start request to the next idle cycle. */
  function JobTime(S: nat): nat {
    1 + SendTime(S)
  }

  /** An accepted byte: its frame on the line, and nothing else taken meanwhile. */
  lemma SendsFrame(S: nat, s: Sender, ins: seq<SendIn>)
    requires 10 <= S && Idle(s) && |ins| == JobTime(S) && ins[0].start
    ensures Line(S, s, ins) == [true, true] + FrameWave(S, FrameOf(ins[0].data)) + Ones(if S == 10 then 1 else 0)
    ensures Taken(S, s, ins) == [ins[0].data] && Idle(RunSender(S, s, ins))
  {
    var f := FrameOf(ins[0].data);
    var s0 := SendingAt(S, f, 0, 0);
    var body, end := ins[1..10 * S], ins[10 * S..];
    assert ins[1..] == body + end;
    FrameStarts(S, s, ins[0]);
    hide NextSender, FrameOf, SendingAt, LineAt, FrameWave, Rest, Line, RunSender, Taken;
    SendsRest(S, f, 0, 0, 0, body);
    SendsEnd(S, f, end);
    RunsConcat(S, s0, body, end);
    OneCycleIdle(S, s, ins);
    FrameAssembles(S, f, Line(S, s0, body), if S == 10 then 3 else 2);
  }

  lemma FrameStarts(S: nat, s: Sender, i: SendIn)
    requires 10 <= S && Idle(s) && i.start
    ensures FrameOf(i.data)[9] && NextSender(S, s, i) == SendingAt(S, FrameOf(i.data), 0, 0)
  {
  }

  lemma OneCycleIdle(S: nat, s: Sender, ins: seq<SendIn>)
    requires S > 0 && Idle(s) && |ins| > 0
    ensures var n := NextSender(S, s, ins[0]);
      && Line(S, s, ins) == [true] + Line(S, n, ins[1..]) && RunSender(S, s, ins) == RunSender(S, n, ins[1..])
      && Taken(S, s, ins) == (if ins[0].start then [ins[0].data] else []) + Taken(S, n, ins[1..])
  {
  }

  /** The parts of a frame put together. */
  lemma FrameAssembles(S: nat, f: seq<bool>, body: seq<bool>, e: nat)
    requires 10 <= S && |f| == 10 && f[9] && e >= 2
    requires body == Rest(S, f, 0)
    ensures [true] + (body + Ones(e)) == [true, true] + FrameWave(S, f) + Ones(e - 2)
  {
    hide FrameIndex;
    var w, v := [true] + (body + Ones(e)), [true, true] + FrameWave(S, f) + Ones(e - 2);
    assert |w| == 10 * S + e == |v|;
    LastBit(S, 10 * S - 2);
    LastBit(S, 10 * S - 1);
    forall n | 0 <= n < |w| ensures w[n] == v[n] {
      if n == 0 {
      } else if n < 10 * S {
        assert w[n] == body[n - 1] == LineAt(S, f, n - 1);
      } else if n < 10 * S + 2 {
        assert v[n] == FrameWave(S, f)[n - 2] == f[9];
      }
    }
  }

  lemma LastBit(S: nat, j: nat)
    requires S >= 3 && 10 * S - 2 <= j < 10 * S
    ensures FrameIndex(S, j) == 9
  {
    FrameIndexAt(S, 9, j - 1 - 9 * S);
  }
}
