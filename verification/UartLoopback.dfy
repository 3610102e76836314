/** Transmitter, line and receiver together: every byte that is taken is received, once, in order
    and unchanged, as long as the corrections of a frame stay within half a bit. */
module UartLoopback {
  import opened Words
  import opened Serdes
  import opened UartFrame
  import opened UartSampling

  /** High cycles between the last cycle of a frame's wave and the earliest next falling edge. */
  function Gap(S: nat): nat {
    if S == 10 then 3 else 2
  }

  /** The corrections of a frame fit between the middle of the stop bit and its end. */
  predicate Fits(S: nat, R: nat)
    requires R > 0
  {
    10 / R + 3 <= (S + 1) / 2 + Gap(S)
  }

  // ---- One frame ----------------------------------------------------------------------------------

  /** Cycle `r` of bit `k`, counted from the falling edge. */
  function BitAt(S: nat, k: nat, r: nat): nat {
    k * S + r + 1
  }

  /** The cycle of its bit in which sample `k` is taken, if that bit lasted long enough. */
  function SampleCycle(S: nat, R: nat, k: nat): nat
    requires R > 0
  {
    S / 2 + (k + 1) / R
  }

  /** Sample `k` falls into bit `k` of the frame; the last one may fall into the gap, which is high
      like the stop bit. */
  lemma SampleInBit(S: nat, R: nat, k: nat)
    requires Rates(S, R) && Fits(S, R) && k < 10
    ensures var r := SampleCycle(S, R, k);
      SampleTime(S, R, k) == BitAt(S, k, r) && (k < 9 ==> r < S) && r + 3 <= S + Gap(S)
  {
    Grows(k + 1, 10, R);
    if S == 10 { Slower(k + 1, R); }
  }

  lemma Slower(x: nat, R: nat)
    requires R > 0
    ensures R >= 2 ==> x / R <= x / 2
  {
    var q := x / R;
    assert x == q * R + x % R;
    assert R >= 2 ==> q * (R - 2) >= 0;
  }

  lemma Grows(a: nat, b: nat, m: nat)
    requires a <= b && m > 0
    ensures a / m <= b / m
  {
    var q, p := a / m, b / m;
    Multiples(if q > p then p + 1 else q, q, m);
    assert (p + 1) * m == p * m + m;
  }

  lemma Multiples(x: nat, y: nat, m: nat)
    requires x <= y
    ensures x * m <= y * m
  {
    assert (y - x) * m >= 0;
  }

  /** The receiver is armed again by the earliest possible next falling edge exactly if the
      corrections fit. */
  lemma RearmedInTime(S: nat, R: nat)
    requires Rates(S, R)
    ensures SampleTime(S, R, 9) + 2 <= 10 * S + Gap(S) <==> Fits(S, R)
  {
  }

  /** The line of a frame and what follows it, at a position behind the edge. */
  lemma FrameShows(S: nat, f: seq<bool>, m: nat, k: nat, r: nat)
    requires S > 0 && |f| == 10 && f[9] && m >= 2 && k < 10 && r < S
    ensures BitAt(S, k, r) < 10 * S + m
    ensures (FrameWave(S, f) + Ones(m))[BitAt(S, k, r)] == f[k]
  {
    FrameIndexAt(S, k, r);
    BitEnds(S, k, r);
    Shows(S, f, m, k, BitAt(S, k, r));
  }

  lemma BitEnds(S: nat, k: nat, r: nat)
    requires k < 10 && r < S
    ensures BitAt(S, k, r) <= 10 * S && (BitAt(S, k, r) == 10 * S ==> k == 9)
  {
    Multiples(k, 9, S);
    if k < 9 { Multiples(k, 8, S); }
  }

  lemma Shows(S: nat, f: seq<bool>, m: nat, k: nat, at: nat)
    requires S > 0 && |f| == 10 && f[9] && m >= 2 && k < 10
    requires (at < 10 * S && FrameIndex(S, at) == k) || (at == 10 * S && k == 9)
    ensures (FrameWave(S, f) + Ones(m))[at] == f[k]
  {
    hide FrameIndex;
  }

  lemma FrameSamples(S: nat, R: nat, f: seq<bool>, m: nat, w: seq<bool>)
    requires Rates(S, R) && Fits(S, R) && |f| == 10 && f[9] && m >= Gap(S)
    requires |w| == SampleTime(S, R, 9) + 2 && |w| <= 10 * S + m && w == (FrameWave(S, f) + Ones(m))[..|w|]
    ensures Samples(S, R, w) == f && w[|w| - 1] && w[|w| - 2] && w[0] == f[0]
  {
    hide SampleTime, FrameWave, Samples, Fits;
    forall k | 0 <= k < 10 ensures Samples(S, R, w)[k] == f[k] {
      SampleAt(S, R, w, k);
      if k < 9 { SampleShows(S, R, f, m, k); } else { LastShows(S, R, f, m); }
    }
    assert Samples(S, R, w) == f;
    LastShows(S, R, f, m);
    EdgeShows(S, f, m);
  }

  lemma SampleShows(S: nat, R: nat, f: seq<bool>, m: nat, k: nat)
    requires Rates(S, R) && Fits(S, R) && |f| == 10 && f[9] && m >= Gap(S) && k < 9
    ensures var w, at := FrameWave(S, f) + Ones(m), SampleTime(S, R, k); at < |w| && w[at] == f[k]
  {
    hide SampleTime, FrameWave, Fits, BitAt, SampleCycle;
    SampleInBit(S, R, k);
    FrameShows(S, f, m, k, SampleCycle(S, R, k));
  }

  lemma LastShows(S: nat, R: nat, f: seq<bool>, m: nat)
    requires Rates(S, R) && Fits(S, R) && |f| == 10 && f[9] && m >= Gap(S)
    ensures var w, at := FrameWave(S, f) + Ones(m), SampleTime(S, R, 9); at + 1 < |w| && w[at] && w[at + 1]
  {
    hide SampleTime, FrameWave, Fits;
    LastSample(S, R);
    TailShows(S, f, m, SampleTime(S, R, 9));
    TailShows(S, f, m, SampleTime(S, R, 9) + 1);
  }

  /** The last sample falls behind the start of the stop bit. */
  lemma LastSample(S: nat, R: nat)
    requires Rates(S, R) && Fits(S, R)
    ensures 9 * S < SampleTime(S, R, 9) && SampleTime(S, R, 9) + 2 <= 10 * S + Gap(S)
  {
    RearmedInTime(S, R);
    assert 10 / R >= 0;
  }

  lemma EdgeShows(S: nat, f: seq<bool>, m: nat)
    requires S > 0 && |f| == 10
    ensures (FrameWave(S, f) + Ones(m))[0] == f[0]
  {
  }

  /** The stop bit and what follows are high. */
  lemma TailShows(S: nat, f: seq<bool>, m: nat, at: nat)
    requires S > 0 && |f| == 10 && f[9] && m >= 2 && 9 * S < at < 10 * S + m
    ensures (FrameWave(S, f) + Ones(m))[at]
  {
    hide FrameWave;
    if at < 10 * S {
      FrameShows(S, f, m, 9, at - 9 * S - 1);
    } else {
      assert (FrameWave(S, f) + Ones(m))[at] == Ones(m)[at - 10 * S];
    }
  }

  lemma {:induction false} OnesStayArmed(S: nat, R: nat, c: Core, n: nat)
    requires Rates(S, R) && Armed(c)
    ensures Armed(RunCore(S, R, c, Ones(n))) && Received(S, R, c, Ones(n)) == []
    decreases n
  {
    if n > 0 {
      EdgeStarts(S, R, c);
      OneStep(S, R, c, Ones(n));
      assert Ones(n)[1..] == Ones(n - 1);
      OnesStayArmed(S, R, NextCore(S, R, c, true), n - 1);
    }
  }

  lemma FrameData(b: Byte)
    ensures DataOf(FrameOf(b)) == b
  {
    ByteBound();
    ValueOfBits(b, 8);
    assert FrameOf(b)[1..9] == BitsOf(b, 8);
  }

  /** A frame followed by the gap is received. */
  lemma FrameReceived(S: nat, R: nat, c: Core, b: Byte, m: nat)
    requires Rates(S, R) && Fits(S, R) && Armed(c) && m >= Gap(S)
    ensures var w := FrameWave(S, FrameOf(b)) + Ones(m);
      Armed(RunCore(S, R, c, w)) && Received(S, R, c, w) == [b]
  {
    var f, w, n := FrameOf(b), FrameWave(S, FrameOf(b)) + Ones(m), SampleTime(S, R, 9) + 2;
    RearmedInTime(S, R);
    var head, rest := w[..n], w[n..];
    assert w == head + rest;
    FrameSamples(S, R, f, m, head);
    FrameData(b);
    hide SampleTime, NextCore, DataOf, FrameWave, Samples, Fits, FrameOf;
    FrameSampled(S, R, c, head);
    ReceivedConcat(S, R, c, head, rest);
    RestIsHigh(S, R, b, m);
    OnesStayArmed(S, R, RunCore(S, R, c, head), |rest|);
  }

  lemma RestIsHigh(S: nat, R: nat, b: Byte, m: nat)
    requires Rates(S, R) && Fits(S, R) && m >= Gap(S)
    ensures SampleTime(S, R, 9) + 2 <= 10 * S + m
    ensures var w, n := FrameWave(S, FrameOf(b)) + Ones(m), SampleTime(S, R, 9) + 2; w[n..] == Ones(|w| - n)
  {
    hide FrameWave, SampleTime, Fits, DataOf;
    LastSample(S, R);
    var w, n := FrameWave(S, FrameOf(b)) + Ones(m), SampleTime(S, R, 9) + 2;
    forall j | n <= j < |w| ensures w[j] {
      TailShows(S, FrameOf(b), m, j);
    }
  }

  // ---- Any sequence of requests -----------------------------------------------------------------------

  /** The last request that is taken has its whole frame. */
  predicate Complete(S: nat, ins: seq<SendIn>)
    decreases |ins|
  {
    |ins| == 0 || (if ins[0].start then |ins| >= JobTime(S) && Complete(S, ins[JobTime(S)..]) else Complete(S, ins[1..]))
  }

  /** The line behind the first two cycles, request by request. */
  function Shifted(S: nat, ins: seq<SendIn>): seq<bool>
    requires S > 0 && Complete(S, ins)
    decreases |ins|
  {
    if |ins| == 0 then []
    else if !ins[0].start then [true] + Shifted(S, ins[1..])
    else FrameWave(S, FrameOf(ins[0].data)) + Ones(Gap(S)) + Shifted(S, ins[JobTime(S)..])
  }

  lemma {:induction false} LineIsShifted(S: nat, s: Sender, ins: seq<SendIn>)
    requires S >= 10 && Idle(s) && Complete(S, ins)
    ensures Line(S, s, ins) + [true, true] == [true, true] + Shifted(S, ins)
    ensures Idle(RunSender(S, s, ins))
    decreases |ins|
  {
    if |ins| > 0 {
      if !ins[0].start {
        OneCycleIdle(S, s, ins);
        LineIsShifted(S, NextSender(S, s, ins[0]), ins[1..]);
        assert [true] + Line(S, NextSender(S, s, ins[0]), ins[1..]) + [true, true] == [true] + ([true, true] + Shifted(S, ins[1..]));
      } else {
        var job, rest := ins[..JobTime(S)], ins[JobTime(S)..];
        SendsFrame(S, s, job);
        LineIsShifted(S, RunSender(S, s, job), rest);
        JobShifts(S, s, ins);
      }
    }
  }

  lemma SplitRun(S: nat, s: Sender, ins: seq<SendIn>, n: nat)
    requires S > 0 && ValidSender(s) && n <= |ins|
    ensures ValidSender(RunSender(S, s, ins[..n])) && RunSender(S, s, ins) == RunSender(S, RunSender(S, s, ins[..n]), ins[n..])
    ensures Line(S, s, ins) == Line(S, s, ins[..n]) + Line(S, RunSender(S, s, ins[..n]), ins[n..])
  {
    assert ins == ins[..n] + ins[n..];
    RunsConcat(S, s, ins[..n], ins[n..]);
  }

  /** A request with its frame, before the requests that follow. */
  lemma JobShifts(S: nat, s: Sender, ins: seq<SendIn>)
    requires S >= 10 && Idle(s) && |ins| >= JobTime(S) && ins[0].start && Complete(S, ins)
    requires var n, rest := RunSender(S, s, ins[..JobTime(S)]), ins[JobTime(S)..];
      ValidSender(n) && Line(S, n, rest) + [true, true] == [true, true] + Shifted(S, rest) && Idle(RunSender(S, n, rest))
    ensures Line(S, s, ins) + [true, true] == [true, true] + Shifted(S, ins) && Idle(RunSender(S, s, ins))
  {
    var job, rest := ins[..JobTime(S)], ins[JobTime(S)..];
    var wave, pad := FrameWave(S, FrameOf(ins[0].data)), if S == 10 then 1 else 0;
    assert Shifted(S, ins) == wave + Ones(pad + 2) + Shifted(S, rest);
    hide FrameWave, FrameOf, Line, RunSender, NextSender, Complete, Shifted, Ones, Idle, Taken;
    SendsFrame(S, s, job);
    SplitRun(S, s, ins, JobTime(S));
    ShiftsOver(wave, pad, Line(S, RunSender(S, s, job), rest), Shifted(S, rest));
  }

  lemma ShiftsOver(wave: seq<bool>, pad: nat, line: seq<bool>, shifted: seq<bool>)
    requires line + [true, true] == [true, true] + shifted
    ensures [true, true] + wave + Ones(pad) + line + [true, true] == [true, true] + (wave + Ones(pad + 2) + shifted)
  {
    assert Ones(pad + 2) == Ones(pad) + [true, true];
    assert [true, true] + wave + Ones(pad) + line + [true, true] == [true, true] + wave + Ones(pad) + (line + [true, true]);
    assert [true, true] + wave + Ones(pad) + ([true, true] + shifted) == [true, true] + (wave + (Ones(pad) + [true, true]) + shifted);
  }

  lemma {:induction false} ShiftedReceived(S: nat, R: nat, s: Sender, c: Core, ins: seq<SendIn>)
    requires Rates(S, R) && Fits(S, R) && Idle(s) && Armed(c) && Complete(S, ins)
    ensures Received(S, R, c, Shifted(S, ins)) == Taken(S, s, ins) && Armed(RunCore(S, R, c, Shifted(S, ins)))
    decreases |ins|
  {
    if |ins| > 0 {
      if !ins[0].start {
        OneCycleIdle(S, s, ins);
        EdgeStarts(S, R, c);
        assert Shifted(S, ins)[1..] == Shifted(S, ins[1..]);
        OneStep(S, R, c, Shifted(S, ins));
        ShiftedReceived(S, R, NextSender(S, s, ins[0]), NextCore(S, R, c, true), ins[1..]);
      } else {
        var job, rest, m := ins[..JobTime(S)], ins[JobTime(S)..], Gap(S);
        assert ins == job + rest;
        SendsFrame(S, s, job);
        RunsConcat(S, s, job, rest);
        var w := FrameWave(S, FrameOf(ins[0].data)) + Ones(m);
        FrameReceived(S, R, c, ins[0].data, m);
        hide FrameWave, FrameOf, NextCore, NextSender, Armed, Idle;
        ReceivedConcat(S, R, c, w, Shifted(S, rest));
        ShiftedReceived(S, R, RunSender(S, s, job), RunCore(S, R, c, w), rest);
      }
    }
  }

  // ---- The synchroniser ---------------------------------------------------------------------------------

  datatype Receiver = Receiver(buf: seq<bool>, rx: bool, core: Core)

  predicate ValidReceiver(r: Receiver) {
    |r.buf| == 3 && ValidCore(r.core)
  }

  function NextReceiver(S: nat, R: nat, r: Receiver, line: bool): (n: Receiver)
    requires Rates(S, R) && ValidReceiver(r)
    ensures ValidReceiver(n)
  {
    Receiver([r.buf[1], r.buf[2], line], r.buf[0], NextCore(S, R, r.core, r.rx))
  }

  function ReceiverReset(S: nat, R: nat): Receiver
    requires Rates(S, R)
  {
    Receiver([true, true, true], true, CoreReset(S, R))
  }

  /** Bytes reported over a stretch of the line as it is outside. */
  function Reported(S: nat, R: nat, r: Receiver, w: seq<bool>): seq<Byte>
    requires Rates(S, R) && ValidReceiver(r)
    decreases |w|
  {
    if |w| == 0 then []
    else
      var n := NextReceiver(S, R, r, w[0]);
      (if n.core.done then [n.core.data] else []) + Reported(S, R, n, w[1..])
  }

  /** Behind the synchroniser the line appears four cycles later. */
  lemma {:induction false} SynchroniserDelays(S: nat, R: nat, r: Receiver, w: seq<bool>)
    requires Rates(S, R) && ValidReceiver(r)
    ensures Reported(S, R, r, w) == Received(S, R, r.core, ([r.rx] + r.buf + w)[..|w|])
    decreases |w|
  {
    hide NextCore;
    if |w| > 0 {
      var n, v := NextReceiver(S, R, r, w[0]), ([r.rx] + r.buf + w)[..|w|];
      SynchroniserDelays(S, R, n, w[1..]);
      assert v[1..] == ([n.rx] + n.buf + w[1..])[..|w| - 1];
      OneStep(S, R, r.core, v);
    }
  }

  // ---- The theorem ------------------------------------------------------------------------------------------

  function Quiet(n: nat): seq<SendIn> {
    seq(n, _ => SendIn(false, 0))
  }

  lemma {:induction false} QuietComplete(S: nat, n: nat)
    ensures Complete(S, Quiet(n))
  {
    if n > 0 {
      assert Quiet(n)[1..] == Quiet(n - 1);
      QuietComplete(S, n - 1);
    }
  }

  lemma {:induction false} QuietCompletes(S: nat, ins: seq<SendIn>, n: nat)
    requires n >= JobTime(S)
    ensures Complete(S, ins + Quiet(n))
    decreases |ins|
  {
    var all := ins + Quiet(n);
    if |ins| == 0 {
      assert all == Quiet(n);
      QuietComplete(S, n);
    } else if !ins[0].start {
      assert all[1..] == ins[1..] + Quiet(n);
      QuietCompletes(S, ins[1..], n);
    } else if |ins| >= JobTime(S) {
      assert all[JobTime(S)..] == ins[JobTime(S)..] + Quiet(n);
      QuietCompletes(S, ins[JobTime(S)..], n);
    } else {
      assert all[JobTime(S)..] == Quiet(n - (JobTime(S) - |ins|));
      QuietComplete(S, n - (JobTime(S) - |ins|));
    }
  }

  lemma {:induction false} QuietTakesNothing(S: nat, s: Sender, n: nat)
    requires S > 0 && ValidSender(s)
    ensures Taken(S, s, Quiet(n)) == []
    decreases n
  {
    hide NextSender;
    if n > 0 {
      assert Quiet(n)[1..] == Quiet(n - 1);
      QuietTakesNothing(S, NextSender(S, s, Quiet(n)[0]), n - 1);
    }
  }

  /** What the receiver sees of a run that ends quietly: the requests one after the other. */
  lemma SeenIsShifted(S: nat, front: seq<SendIn>, w: seq<bool>)
    requires S >= 10 && Complete(S, front) && w == Line(S, SenderReset(S), front) + Ones(6)
    ensures ([true] + [true, true, true] + w)[..|w|] == Ones(6) + Shifted(S, front)
  {
    LineIsShifted(S, SenderReset(S), front);
    DelayedLine(Line(S, SenderReset(S), front), Shifted(S, front), w);
  }

  lemma DelayedLine(l: seq<bool>, shifted: seq<bool>, w: seq<bool>)
    requires l + [true, true] == [true, true] + shifted && w == l + Ones(6)
    ensures ([true] + [true, true, true] + w)[..|w|] == Ones(6) + shifted
  {
    assert ([true] + [true, true, true] + w)[..|w|] == Ones(4) + (l + [true, true]);
    assert Ones(4) + ([true, true] + shifted) == Ones(6) + shifted;
  }

  lemma ResetIdle(S: nat)
    requires S > 0
    ensures ValidSender(SenderReset(S)) && Idle(SenderReset(S))
  {
  }

  lemma QuietAdds(a: nat, b: nat)
    ensures Quiet(a + b) == Quiet(a) + Quiet(b)
  {
  }

  /** The line and the bytes taken of a run with a quiet end. */
  lemma QuietEnd(S: nat, ins: seq<SendIn>, n: nat)
    requires S >= 10 && n >= JobTime(S) + 6
    ensures var front := ins + Quiet(n - 6);
      && Complete(S, front) && Taken(S, SenderReset(S), front) == Taken(S, SenderReset(S), ins)
      && Line(S, SenderReset(S), ins + Quiet(n)) == Line(S, SenderReset(S), front) + Ones(6)
  {
    hide Complete, Shifted, Taken, RunSender, NextSender, Line, Idle, ValidSender, SenderReset, Quiet, Ones;
    var s, front := SenderReset(S), ins + Quiet(n - 6);
    ResetIdle(S);
    QuietAdds(n - 6, 6);
    assert ins + Quiet(n) == front + Quiet(6);
    QuietCompletes(S, ins, n - 6);
    LineIsShifted(S, s, front);
    IdleLine(S, RunSender(S, s, front), 6);
    RunsConcat(S, s, front, Quiet(6));
    RunsConcat(S, s, ins, Quiet(n - 6));
    QuietTakesNothing(S, RunSender(S, s, ins), n - 6);
  }

  /** Loopback with a drift bound: whatever is requested and when, after a quiet time the bytes
      received are exactly the bytes taken, in order. */
  lemma Loopback(S: nat, R: nat, ins: seq<SendIn>, n: nat)
    requires Rates(S, R) && Fits(S, R) && n >= JobTime(S) + 6
    ensures Reported(S, R, ReceiverReset(S, R), Line(S, SenderReset(S), ins + Quiet(n))) == Taken(S, SenderReset(S), ins)
  {
    var s, r, front := SenderReset(S), ReceiverReset(S, R), ins + Quiet(n - 6);
    var w := Line(S, s, ins + Quiet(n));
    assert Armed(r.core) && Idle(s);
    hide NextSender, NextCore, Complete, Shifted, Taken, RunSender, Line, Received, Reported, Armed, Idle;
    QuietEnd(S, ins, n);
    SynchroniserDelays(S, R, r, w);
    SeenIsShifted(S, front, w);
    OnesStayArmed(S, R, r.core, 6);
    ReceivedConcat(S, R, r.core, Ones(6), Shifted(S, front));
    ShiftedReceived(S, R, s, RunCore(S, R, r.core, Ones(6)), front);
  }

  lemma {:induction false} IdleLine(S: nat, s: Sender, n: nat)
    requires S > 0 && Idle(s)
    ensures Line(S, s, Quiet(n)) == Ones(n)
    decreases n
  {
    if n > 0 {
      OneCycleIdle(S, s, Quiet(n));
      assert Quiet(n)[1..] == Quiet(n - 1);
      IdleLine(S, NextSender(S, s, Quiet(n)[0]), n - 1);
      assert [true] + Ones(n - 1) == Ones(n);
    }
  }

  lemma {:induction false} ReportedGrows(S: nat, R: nat, r: Receiver, a: seq<bool>, b: seq<bool>)
    requires Rates(S, R) && ValidReceiver(r)
    ensures Reported(S, R, r, a) <= Reported(S, R, r, a + b)
    decreases |a|
  {
    hide NextReceiver;
    if |a| > 0 {
      assert (a + b)[1..] == a[1..] + b && (a + b)[0] == a[0];
      ReportedGrows(S, R, NextReceiver(S, R, r, a[0]), a[1..], b);
    }
  }

  /** At every moment, in the middle of a frame or not, the bytes received are a prefix of the bytes
      taken: nothing is lost, repeated, reordered or altered on the way. */
  lemma LoopbackPrefix(S: nat, R: nat, ins: seq<SendIn>)
    requires Rates(S, R) && Fits(S, R)
    ensures Reported(S, R, ReceiverReset(S, R), Line(S, SenderReset(S), ins)) <= Taken(S, SenderReset(S), ins)
  {
    var s, r, n := SenderReset(S), ReceiverReset(S, R), JobTime(S) + 6;
    Loopback(S, R, ins, n);
    RunsConcat(S, s, ins, Quiet(n));
    ReportedGrows(S, R, r, Line(S, s, ins), Line(S, RunSender(S, s, ins), Quiet(n)));
  }

  /** In terms of the clock and baud rates, below the clock rate at which the transmitter's
      parameter overflows. From 21 cycles a bit on the bound always holds. */
  lemma LoopbackAtRates(clock: nat, rate: nat, ins: seq<SendIn>)
    requires rate > 0 && clock / rate >= 10 && clock * 10 < TWO31
    ensures RemainderParameter(clock, rate) == clock / rate
    requires clock / rate >= 21 || Fits(clock / rate, Correction(clock % rate * 10 / rate))
    ensures Reported(clock / rate, Correction(clock % rate * 10 / rate),
                     ReceiverReset(clock / rate, Correction(clock % rate * 10 / rate)), Line(clock / rate, SenderReset(clock / rate), ins))
         <= Taken(clock / rate, SenderReset(clock / rate), ins)
  {
    var S, R := clock / rate, Correction(clock % rate * 10 / rate);
    assert 10 / R <= 10;
    SenderRemainder(clock, rate);
    LoopbackPrefix(S, R, ins);
  }
}
