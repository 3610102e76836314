/** The receiver of the serial line: edge detection, baud counting and frame capture. */
module UartSampling {
  import opened Words
  import opened Serdes
  import opened UartFrame

  /** The receiver behind its synchroniser; `prev` is the synchronised line one cycle ago. */
  datatype Core = Core(
    prev: bool, keep: bool, tick: bool, wait: bool, baud: nat, sample: nat, frame: seq<bool>, bits: nat,
    finished: bool, done: bool, data: Byte, channel: bool)

  /** Bits between two correction cycles. The counter of a zero remainder is two bits wide and
      starts at three. */
  function Correction(remainder: nat): (R: nat)
    ensures R > 0
  {
    if remainder == 0 then 4 else remainder
  }

  /** States of the correction counter: a vector of log2(R) bits, where a width of zero declares two. */
  function CounterStates(R: nat): (n: nat)
    ensures n > 0
  {
    if R <= 1 then 4 else CounterRange(R)
  }

  /** The counter starts at R - 1, cut to its width. */
  lemma CorrectionIsCounter(R: nat)
    requires R < 0x1_0000_0000
    ensures (R + 0xffff_ffff) % 0x1_0000_0000 % CounterStates(R) == Correction(R) - 1
  {
    if R == 0 {
      assert 0xffff_ffff % 4 == 3;
    } else {
      SplitAt(1, R - 1, 0x1_0000_0000);
      SplitAt(0, R - 1, CounterStates(R));
    }
  }

  predicate ValidCore(c: Core) {
    |c.frame| == 10 && c.bits < 10
  }

  predicate Rates(S: nat, R: nat) {
    S >= 10 && R > 0
  }

  /** What the baud generator holds. */
  datatype Baud = Baud(tick: bool, wait: bool, baud: nat, sample: nat)

  /** The baud generator counts half an interval first, then whole ones; every R-th tick comes one
      cycle late. */
  function NextBaud(S: nat, R: nat, c: Core): Baud
    requires Rates(S, R)
  {
    if !c.keep then Baud(false, false, S / 2 - 1, R - 1)
    else if c.wait then Baud(true, false, S - 1, R - 1)
    else if c.baud > 0 then Baud(false, false, c.baud - 1, c.sample)
    else if c.sample > 0 then Baud(true, false, S - 1, c.sample - 1)
    else Baud(false, true, 0, 0)
  }

  /** The frame register shifts at each tick. */
  function NextCore(S: nat, R: nat, c: Core, rx: bool): (n: Core)
    requires Rates(S, R) && ValidCore(c)
    ensures ValidCore(n)
  {
    var counted := NextBaud(S, R, c);
    var captures := c.keep && c.tick;
    var valid := !c.frame[0] && c.frame[9];
    Core(rx,
         if c.finished then !valid else c.keep || (c.prev && !rx),
         counted.tick, counted.wait, counted.baud, counted.sample,
         if captures then c.frame[1..] + [rx] else c.frame,
         if !captures then c.bits else if c.bits > 0 then c.bits - 1 else 9,
         if c.finished then false else captures && c.bits == 0,
         c.finished && valid,
         if c.finished && valid then DataOf(c.frame) else c.data,
         if c.finished then !valid else c.channel)
  }

  function DataOf(f: seq<bool>): Byte
    requires |f| == 10
  {
    ByteOf(f[1..9])
  }

  const CORE_RESET_FRAME: seq<bool> := [true, true, true, true, true, true, true, true, true, true]

  function CoreReset(S: nat, R: nat): Core
    requires Rates(S, R)
  {
    Core(true, false, false, false, S / 2 - 1, R - 1, CORE_RESET_FRAME, 9, false, false, 0, false)
  }

  /** The receiver behind its synchroniser as a clocked object. */
  class UartRx {
    const S: nat
    const R: nat
    var prev: bool
    var keep: bool
    var tick: bool
    var wait: bool
    var baud: nat
    var sample: nat
    var frame: seq<bool>
    var bits: nat
    var finished: bool
    var done: bool
    var data: Byte
    var channel: bool

    function State(): Core
      reads this
    {
      Core(prev, keep, tick, wait, baud, sample, frame, bits, finished, done, data, channel)
    }

    ghost predicate Valid()
      reads this
    {
      Rates(S, R) && ValidCore(State())
    }

    constructor (S: nat, R: nat)
      requires Rates(S, R)
      ensures Valid() && this.S == S && this.R == R && State() == CoreReset(S, R)
    {
      this.S, this.R := S, R;
      prev, keep, tick, wait, baud, sample := true, false, false, false, S / 2 - 1, R - 1;
      frame, bits, finished, done, data, channel := CORE_RESET_FRAME, 9, false, false, 0, false;
    }

    method CountBaud()
      requires Valid()
      modifies this`tick, this`wait, this`baud, this`sample
      ensures Valid()
      ensures Baud(tick, wait, baud, sample) == NextBaud(S, R, old(State()))
    {
      if !keep {
        tick, wait, baud, sample := false, false, S / 2 - 1, R - 1;
      } else if wait {
        tick, wait, sample, baud := true, false, R - 1, S - 1;
      } else {
        tick := false;
        if baud > 0 {
          baud := baud - 1;
        } else if sample > 0 {
          tick, baud, sample := true, S - 1, sample - 1;
        } else {
          wait := true;
        }
      }
    }

    /** The frame register and its bit counter. */
    method Capture(rx: bool, ticked: bool)
      requires Valid()
      modifies this`keep, this`frame, this`bits, this`finished
      ensures Valid()
      ensures keep == (old(keep) || (prev && !rx))
      ensures frame == if old(keep) && ticked then old(frame)[1..] + [rx] else old(frame)
      ensures bits == if old(keep) && ticked then (if old(bits) > 0 then old(bits) - 1 else 9) else old(bits)
      ensures finished == (old(finished) || (old(keep) && ticked && old(bits) == 0))
    {
      if !keep {
        if prev && !rx { keep := true; }
      } else if ticked {
        frame := frame[1..] + [rx];
        if bits > 0 { bits := bits - 1; } else { bits, finished := 9, true; }
      }
    }

    /** The byte of a valid frame that has ended; after any other the receiver keeps sampling. */
    method Report(ended: bool, f: seq<bool>)
      requires |f| == 10
      modifies this`keep, this`finished, this`done, this`data, this`channel
      ensures var valid := !f[0] && f[9];
        && keep == (if ended then !valid else old(keep)) && finished == (!ended && old(finished))
        && done == (ended && valid) && data == (if ended && valid then DataOf(f) else old(data))
        && channel == if ended then !valid else old(channel)
    {
      hide DataOf;
      done := false;
      if ended {
        finished := false;
        if !f[0] && f[9] {
          channel, keep, data, done := false, false, DataOf(f), true;
        } else {
          keep, channel := true, true;
        }
      }
    }

    /** One rising clock edge; frame capture sees the tick from before the edge, and the end of a
        frame overrides what an edge or a tick would do. */
    method Tick(rx: bool)
      requires Valid()
      modifies this
      ensures Valid() && State() == NextCore(S, R, old(State()), rx)
    {
      hide DataOf, NextBaud;
      var ticked, ended, f := tick, finished, frame;
      CountBaud();
      Capture(rx, ticked);
      Report(ended, f);
      prev := rx;
    }
  }

  function RunCore(S: nat, R: nat, c: Core, w: seq<bool>): (f: Core)
    requires Rates(S, R) && ValidCore(c)
    ensures ValidCore(f)
    decreases |w|
  {
    if |w| == 0 then c else RunCore(S, R, NextCore(S, R, c, w[0]), w[1..])
  }

  /** Bytes reported over a stretch of the line. */
  function Received(S: nat, R: nat, c: Core, w: seq<bool>): seq<Byte>
    requires Rates(S, R) && ValidCore(c)
    decreases |w|
  {
    if |w| == 0 then []
    else
      var n := NextCore(S, R, c, w[0]);
      (if n.done then [n.data] else []) + Received(S, R, n, w[1..])
  }

  lemma {:induction false} ReceivedConcat(S: nat, R: nat, c: Core, a: seq<bool>, b: seq<bool>)
    requires Rates(S, R) && ValidCore(c)
    ensures Received(S, R, c, a + b) == Received(S, R, c, a) + Received(S, R, RunCore(S, R, c, a), b)
    ensures RunCore(S, R, c, a + b) == RunCore(S, R, RunCore(S, R, c, a), b)
    decreases |a|
  {
    hide NextCore;
    if |a| == 0 {
      assert a + b == b;
    } else {
      assert (a + b)[1..] == a[1..] + b && (a + b)[0] == a[0];
      ReceivedConcat(S, R, NextCore(S, R, c, a[0]), a[1..], b);
    }
  }

  lemma OneStep(S: nat, R: nat, c: Core, w: seq<bool>)
    requires Rates(S, R) && ValidCore(c) && |w| > 0
    ensures var n := NextCore(S, R, c, w[0]);
      RunCore(S, R, c, w) == RunCore(S, R, n, w[1..])
      && Received(S, R, c, w) == (if n.done then [n.data] else []) + Received(S, R, n, w[1..])
  {
  }

  // ---- Stages of a frame ---------------------------------------------------------------------------

  /** Waiting for a falling edge. */
  predicate Armed(c: Core) {
    ValidCore(c) && !c.keep && !c.finished && c.bits == 9 && c.prev
  }

  /** Sampling, with `got` captured, `b` cycles to go to the next tick (a correction cycle aside). */
  predicate Counting(c: Core, got: seq<bool>, b: nat, x: nat) {
    && ValidCore(c) && c.keep && !c.finished && !c.tick && !c.wait && c.baud == b && c.sample == x
    && |got| < 10 && c.bits == 9 - |got| && c.frame[10 - |got|..] == got
  }

  /** The cycle of a tick. */
  predicate Ticking(S: nat, c: Core, got: seq<bool>, x: nat) {
    && ValidCore(c) && c.keep && !c.finished && c.tick && !c.wait && c.baud + 1 == S && c.sample == x
    && |got| < 10 && c.bits == 9 - |got| && c.frame[10 - |got|..] == got
  }

  /** Cycles from one tick to the next when `x` is left of the correction count. */
  function Late(x: nat): nat { if x == 0 then 1 else 0 }

  function NextSample(R: nat, x: nat): nat
    requires R > 0
  {
    if x == 0 then R - 1 else x - 1
  }

  lemma {:induction false} CountsDown(S: nat, R: nat, c: Core, got: seq<bool>, b: nat, x: nat, w: seq<bool>)
    requires Rates(S, R) && Counting(c, got, b, x) && |w| == b + 1 + Late(x)
    ensures Ticking(S, RunCore(S, R, c, w), got, NextSample(R, x)) && Received(S, R, c, w) == []
    decreases b
  {
    var n := NextCore(S, R, c, w[0]);
    if b > 0 {
      CountsDown(S, R, n, got, b - 1, x, w[1..]);
    } else if x == 0 {
      var m := NextCore(S, R, n, w[1]);
      assert w[1..][1..] == [] && w[1..][0] == w[1];
      assert RunCore(S, R, n, w[1..]) == RunCore(S, R, m, []);
      assert Received(S, R, n, w[1..]) == [] + Received(S, R, m, []);
    } else {
      assert w[1..] == [];
    }
  }

  /** The tick shifts the line value in. */
  lemma TickCaptures(S: nat, R: nat, c: Core, got: seq<bool>, x: nat, rx: bool)
    requires Rates(S, R) && Ticking(S, c, got, x) && |got| < 9
    ensures Counting(NextCore(S, R, c, rx), got + [rx], S - 2, x) && !NextCore(S, R, c, rx).done
  {
    var n := NextCore(S, R, c, rx);
    assert n.frame[10 - |got| - 1..] == c.frame[10 - |got|..] + [rx];
  }

  /** The falling edge starts the count. */
  lemma EdgeStarts(S: nat, R: nat, c: Core)
    requires Rates(S, R) && Armed(c)
    ensures Counting(NextCore(S, R, c, false), [], S / 2 - 1, R - 1) && !NextCore(S, R, c, false).done
    ensures Armed(NextCore(S, R, c, true)) && !NextCore(S, R, c, true).done
  {
  }

  /** The last tick completes the frame; two cycles later a valid byte is out and the receiver is
      armed again, provided the line is high by then. */
  lemma LastTick(S: nat, R: nat, c: Core, got: seq<bool>, x: nat, w: seq<bool>)
    requires Rates(S, R) && Ticking(S, c, got, x) && |got| == 9 && |w| == 2 && w[1]
    requires !got[0] && w[0]
    ensures Armed(RunCore(S, R, c, w)) && Received(S, R, c, w) == [DataOf(got + [true])]
  {
    var n := NextCore(S, R, c, w[0]);
    var m := NextCore(S, R, n, w[1]);
    assert c.frame[1..] == got;
    assert n.frame == got + [true];
    OneStep(S, R, c, w);
    OneStep(S, R, n, w[1..]);
    assert w[1..][1..] == [] && Received(S, R, m, []) == [] && RunCore(S, R, m, []) == m;
  }

  // ---- Where the samples fall ------------------------------------------------------------------------

  /** Cycles from the falling edge to sample `k`: half an interval, whole ones, and the correction
      cycles so far. */
  function SampleTime(S: nat, R: nat, k: nat): nat
    requires R > 0
  {
    S / 2 + 1 + k * S + (k + 1) / R
  }

  /** What is left of the correction count at sample `k`. */
  function SampleLeft(R: nat, k: nat): nat
    requires R > 0
  {
    R - 1 - (k + 1) % R
  }

  lemma NextSampleTime(S: nat, R: nat, k: nat)
    requires R > 0
    ensures SampleTime(S, R, k + 1) == SampleTime(S, R, k) + S + Late(SampleLeft(R, k))
    ensures NextSample(R, SampleLeft(R, k)) == SampleLeft(R, k + 1)
  {
    var q, r := (k + 1) / R, (k + 1) % R;
    assert k + 1 == q * R + r;
    if r == R - 1 {
      assert k + 2 == (q + 1) * R + 0;
      SplitAt(q + 1, 0, R);
    } else {
      assert k + 2 == q * R + (r + 1);
      SplitAt(q, r + 1, R);
    }
    assert (k + 1) * S == k * S + S;
  }

  lemma FirstSample(R: nat)
    requires R > 0
    ensures 1 / R == Late(R - 1) && NextSample(R, R - 1) == SampleLeft(R, 0)
  {
    if R > 1 { SplitAt(0, 1, R); }
  }

  lemma {:induction false} SampleTimesGrow(S: nat, R: nat, j: nat, k: nat)
    requires R > 0 && j <= k
    ensures SampleTime(S, R, j) + (k - j) * S <= SampleTime(S, R, k)
    decreases k - j
  {
    if j < k {
      NextSampleTime(S, R, j);
      SampleTimesGrow(S, R, j + 1, k);
      assert (k - j) * S == (k - (j + 1)) * S + S;
    }
  }

  /** From one tick to the next: the line value at the tick is captured. */
  lemma GapCaptures(S: nat, R: nat, c: Core, got: seq<bool>, x: nat, a: seq<bool>)
    requires Rates(S, R) && Ticking(S, c, got, x) && |got| < 9 && |a| == S + Late(x)
    ensures Ticking(S, RunCore(S, R, c, a), got + [a[0]], NextSample(R, x)) && Received(S, R, c, a) == []
  {
    var n := NextCore(S, R, c, a[0]);
    TickCaptures(S, R, c, got, x, a[0]);
    OneStep(S, R, c, a);
    hide NextCore;
    CountsDown(S, R, n, got + [a[0]], S - 2, x, a[1..]);
  }

  /** The values at the sample times of a stretch of line that starts at the falling edge. */
  function Samples(S: nat, R: nat, w: seq<bool>): (v: seq<bool>)
    requires R > 0 && |w| == SampleTime(S, R, 9) + 2
    ensures |v| == 10
  {
    seq(10, k requires 0 <= k < 10 => (SampleTimesGrow(S, R, k, 9); w[SampleTime(S, R, k)]))
  }

  lemma SampleAt(S: nat, R: nat, w: seq<bool>, k: nat)
    requires R > 0 && |w| == SampleTime(S, R, 9) + 2 && k < 10
    ensures SampleTime(S, R, k) + 2 <= |w| && Samples(S, R, w)[k] == w[SampleTime(S, R, k)]
  {
    hide SampleTime;
    SampleTimesGrow(S, R, k, 9);
    assert (9 - k) * S >= 0;
  }

  /** From one sample to the next. */
  lemma SampleStep(S: nat, R: nat, c: Core, k: nat, w: seq<bool>)
    requires Rates(S, R) && k < 9 && |w| == SampleTime(S, R, 9) + 2
    requires Ticking(S, c, Samples(S, R, w)[..k], SampleLeft(R, k))
    ensures SampleTime(S, R, k) <= SampleTime(S, R, k + 1) <= |w|
    ensures var a := w[SampleTime(S, R, k)..SampleTime(S, R, k + 1)];
      && Ticking(S, RunCore(S, R, c, a), Samples(S, R, w)[..k + 1], SampleLeft(R, k + 1))
      && Received(S, R, c, a) == []
  {
    hide Samples, SampleTime, SampleLeft, NextCore, RunCore, Received;
    SampleAt(S, R, w, k);
    SampleAt(S, R, w, k + 1);
    NextSampleTime(S, R, k);
    var v, a := Samples(S, R, w), w[SampleTime(S, R, k)..SampleTime(S, R, k + 1)];
    GapCaptures(S, R, c, v[..k], SampleLeft(R, k), a);
    assert v[..k + 1] == v[..k] + [a[0]];
  }

  lemma SilentStart(S: nat, R: nat, c: Core, a: seq<bool>, b: seq<bool>)
    requires Rates(S, R) && ValidCore(c) && Received(S, R, c, a) == []
    ensures RunCore(S, R, c, a + b) == RunCore(S, R, RunCore(S, R, c, a), b)
    ensures Received(S, R, c, a + b) == Received(S, R, RunCore(S, R, c, a), b)
  {
    hide NextCore, RunCore, Received;
    ReceivedConcat(S, R, c, a, b);
    assert [] + Received(S, R, RunCore(S, R, c, a), b) == Received(S, R, RunCore(S, R, c, a), b);
  }

  lemma TickingValid(S: nat, c: Core, got: seq<bool>, x: nat)
    requires Ticking(S, c, got, x)
    ensures ValidCore(c)
  {
  }

  lemma CutAt<T>(w: seq<T>, at: nat, next: nat)
    requires at <= next <= |w|
    ensures w[at..] == w[at..next] + w[next..]
  {
  }

  /** The last sample of the frame. */
  lemma SamplesLast(S: nat, R: nat, c: Core, v: seq<bool>, x: nat, a: seq<bool>)
    requires Rates(S, R) && |v| == 10 && Ticking(S, c, v[..9], x) && |a| == 2 && a[0] && a[1] && a[0] == v[9] && !v[0]
    ensures ValidCore(c) && Armed(RunCore(S, R, c, a)) && Received(S, R, c, a) == [DataOf(v)]
  {
    hide NextCore, DataOf, RunCore, Received, Armed, ValidCore, Ticking;
    TickingValid(S, c, v[..9], x);
    assert v == v[..9] + [true];
    LastTick(S, R, c, v[..9], x, a);
  }

  /** From sample `k` on: the rest of the frame is captured as the line shows it. */
  lemma {:induction false} SamplesRest(S: nat, R: nat, c: Core, k: nat, w: seq<bool>)
    requires Rates(S, R) && k < 10 && |w| == SampleTime(S, R, 9) + 2 && w[|w| - 1] && w[|w| - 2]
    requires Ticking(S, c, Samples(S, R, w)[..k], SampleLeft(R, k)) && !Samples(S, R, w)[0]
    requires SampleTime(S, R, k) <= |w|
    ensures var rest := w[SampleTime(S, R, k)..];
      Armed(RunCore(S, R, c, rest)) && Received(S, R, c, rest) == [DataOf(Samples(S, R, w))]
    decreases 10 - k
  {
    hide Samples, SampleTime, SampleLeft, NextCore, DataOf, RunCore, Received, Armed, ValidCore, Ticking;
    var v, at := Samples(S, R, w), SampleTime(S, R, k);
    TickingValid(S, c, v[..k], SampleLeft(R, k));
    SampleAt(S, R, w, k);
    if k == 9 {
      SamplesLast(S, R, c, v, SampleLeft(R, 9), w[at..]);
    } else {
      SampleStep(S, R, c, k, w);
      var next := SampleTime(S, R, k + 1);
      CutAt(w, at, next);
      SilentStart(S, R, c, w[at..next], w[next..]);
      SamplesRest(S, R, RunCore(S, R, c, w[at..next]), k + 1, w);
    }
  }

  /** A whole frame from the falling edge on: the byte reported is read off the line at the sample
      times, and the receiver is armed again two cycles after the last of them. */
  lemma FrameSampled(S: nat, R: nat, c: Core, w: seq<bool>)
    requires Rates(S, R) && Armed(c) && |w| == SampleTime(S, R, 9) + 2 && !w[0] && w[|w| - 1] && w[|w| - 2]
    requires !Samples(S, R, w)[0]
    ensures Armed(RunCore(S, R, c, w)) && Received(S, R, c, w) == [DataOf(Samples(S, R, w))]
  {
    var n, t := NextCore(S, R, c, w[0]), SampleTime(S, R, 0);
    SampleTimesGrow(S, R, 0, 9);
    EdgeStarts(S, R, c);
    FirstSample(R);
    var a, b := w[1..t], w[t..];
    assert w[1..] == a + b;
    assert 0 * S == 0 && |a| == S / 2 + Late(R - 1);
    OneStep(S, R, c, w);
    hide Samples, SampleTime, SampleLeft, NextCore, DataOf, Ticking, Counting;
    CountsDown(S, R, n, [], S / 2 - 1, R - 1, a);
    ReceivedConcat(S, R, n, a, b);
    assert Samples(S, R, w)[..0] == [];
    SamplesRest(S, R, RunCore(S, R, n, a), 0, w);
  }
}
