/** The drift bound is exact: whenever it is missed, two bytes sent back to back are not both
    received. */
module UartDrift {
  import opened Words
  import opened Serdes
  import opened UartFrame
  import opened UartSampling
  import opened UartLoopback

  // ---- A line that only rises -------------------------------------------------------------------------

  predicate Rising(v: seq<bool>) {
    forall i :: 1 <= i < |v| ==> (v[i - 1] ==> v[i])
  }

  /** No falling edge from here on, the value before included. */
  predicate RisesFrom(c: Core, v: seq<bool>) {
    Rising(v) && (|v| > 0 && c.prev ==> v[0])
  }

  lemma {:induction false} NothingWithoutEdge(S: nat, R: nat, c: Core, v: seq<bool>)
    requires Rates(S, R) && ValidCore(c) && !c.keep && !c.finished && RisesFrom(c, v)
    ensures Received(S, R, c, v) == []
    decreases |v|
  {
    if |v| > 0 { NothingWithoutEdge(S, R, NextCore(S, R, c, v[0]), v[1..]); }
  }

  /** A receiver that is in the middle of a frame reports at most one byte before the next edge. */
  lemma {:induction false} OnceWithoutEdge(S: nat, R: nat, c: Core, v: seq<bool>)
    requires Rates(S, R) && ValidCore(c) && c.keep && RisesFrom(c, v)
    ensures |Received(S, R, c, v)| <= 1
    decreases |v|
  {
    if |v| > 0 {
      var n := NextCore(S, R, c, v[0]);
      if n.keep { OnceWithoutEdge(S, R, n, v[1..]); } else { NothingWithoutEdge(S, R, n, v[1..]); }
    }
  }

  /** At the tick of the last sample the frame needs two more cycles, so an edge in the second of
      them is missed. */
  lemma LastTickOnce(S: nat, R: nat, c: Core, got: seq<bool>, x: nat, v: seq<bool>)
    requires Rates(S, R) && Ticking(S, c, got, x) && |got| == 9 && |v| >= 2 && Rising(v[1..])
    ensures |Received(S, R, c, v)| <= 1
  {
    var n := NextCore(S, R, c, v[0]);
    AfterLastTick(S, R, c, got, x, v[0], v[1]);
    OneStep(S, R, c, v);
    OneStep(S, R, n, v[1..]);
    hide NextCore, Received, RunCore, Ticking;
    OnceAfter(S, R, NextCore(S, R, n, v[1]), v[1..]);
  }

  lemma AfterLastTick(S: nat, R: nat, c: Core, got: seq<bool>, x: nat, a: bool, b: bool)
    requires Rates(S, R) && Ticking(S, c, got, x) && |got| == 9
    ensures var n := NextCore(S, R, c, a); var m := NextCore(S, R, n, b);
      !n.done && m.prev == b && (m.keep ==> !m.done) && (!m.keep ==> !m.finished)
  {
  }

  /** What follows a value on a line that only rises from that value on. */
  lemma OnceAfter(S: nat, R: nat, m: Core, v: seq<bool>)
    requires Rates(S, R) && ValidCore(m) && |v| > 0 && Rising(v) && m.prev == v[0] && (!m.keep ==> !m.finished)
    ensures |Received(S, R, m, v[1..])| <= 1 && (!m.keep ==> Received(S, R, m, v[1..]) == [])
  {
    hide NextCore, Received;
    var rest := v[1..];
    assert forall i :: 1 <= i < |rest| ==> rest[i - 1] == v[i] && rest[i] == v[i + 1];
    if m.keep { OnceWithoutEdge(S, R, m, rest); } else { NothingWithoutEdge(S, R, m, rest); }
  }

  // ---- Up to the last sample -----------------------------------------------------------------------------

  /** From a falling edge nothing is reported up to the last sample, whatever the line does. */
  lemma {:induction false} SilentUntil(S: nat, R: nat, c: Core, w: seq<bool>, k: nat)
    requires Rates(S, R) && Armed(c) && |w| == SampleTime(S, R, 9) + 2 && !w[0] && k < 10
    ensures SampleTime(S, R, k) <= |w|
    ensures Ticking(S, RunCore(S, R, c, w[..SampleTime(S, R, k)]), Samples(S, R, w)[..k], SampleLeft(R, k))
    ensures Received(S, R, c, w[..SampleTime(S, R, k)]) == []
    decreases k
  {
    SampleAt(S, R, w, k);
    if k == 0 {
      SilentUntilFirst(S, R, c, w);
    } else {
      SilentUntil(S, R, c, w, k - 1);
      hide Samples, SampleTime, SampleLeft, NextCore, RunCore, Received, Ticking, Armed;
      var a, b := SampleTime(S, R, k - 1), SampleTime(S, R, k);
      assert ValidCore(RunCore(S, R, c, w[..a]));
      SampleStep(S, R, RunCore(S, R, c, w[..a]), k - 1, w);
      assert w[..b] == w[..a] + w[a..b];
      assert ValidCore(c) by { ArmedValid(c); }
      ReceivedConcat(S, R, c, w[..a], w[a..b]);
    }
  }

  lemma ArmedValid(c: Core)
    requires Armed(c)
    ensures ValidCore(c)
  {
  }

  lemma SilentUntilFirst(S: nat, R: nat, c: Core, w: seq<bool>)
    requires Rates(S, R) && Armed(c) && |w| == SampleTime(S, R, 9) + 2 && !w[0]
    ensures SampleTime(S, R, 0) <= |w|
    ensures Ticking(S, RunCore(S, R, c, w[..SampleTime(S, R, 0)]), Samples(S, R, w)[..0], SampleLeft(R, 0))
    ensures Received(S, R, c, w[..SampleTime(S, R, 0)]) == []
  {
    SampleAt(S, R, w, 0);
    EdgeStarts(S, R, c);
    FirstSample(R);
    var t := SampleTime(S, R, 0);
    assert 0 * S == 0 && t == 1 + (S / 2 + Late(R - 1));
    assert w[..t][0] == w[0] && w[..t][1..] == w[1..t];
    OneStep(S, R, c, w[..t]);
    hide NextCore, Counting, Ticking, Samples, SampleTime, SampleLeft;
    CountsDown(S, R, NextCore(S, R, c, w[0]), [], S / 2 - 1, R - 1, w[1..t]);
    assert Samples(S, R, w)[..0] == [];
  }

  // ---- Two zero bytes back to back ---------------------------------------------------------------------------

  /** The wave of a zero byte is low up to its stop bit. */
  lemma ZeroFrame(S: nat)
    requires S >= 10
    ensures FrameOf(0) == [false, false, false, false, false, false, false, false, false, true]
    ensures forall j :: 0 <= j < 10 * S ==> (FrameWave(S, FrameOf(0))[j] <==> j > 9 * S)
  {
    ZeroBits();
    var f := FrameOf(0);
    forall j | 0 <= j < 10 * S ensures FrameWave(S, f)[j] <==> j > 9 * S {
      if j > 9 * S { FrameIndexAt(S, 9, j - 1 - 9 * S); }
      else if j > 0 { EarlyIndex(S, j); }
    }
  }

  lemma ZeroBits()
    ensures BitsOf(0, 8) == [false, false, false, false, false, false, false, false]
  {
    assert BitsOf(0, 4) == [false, false, false, false];
  }

  lemma EarlyIndex(S: nat, j: nat)
    requires S > 0 && 0 < j <= 9 * S
    ensures FrameIndex(S, j) < 9
  {
    var q := (j - 1) / S;
    assert j - 1 == q * S + (j - 1) % S;
    assert q >= 9 ==> q * S >= 9 * S;
  }

  /** What the receiver sees: two frames with the smallest gap, then high for `n` cycles. */
  function BackToBack(S: nat, n: nat): seq<bool>
    requires S >= 10
  {
    FrameWave(S, FrameOf(0)) + Ones(Gap(S)) + (FrameWave(S, FrameOf(0)) + Ones(n))
  }

  lemma BackToBackRises(S: nat, n: nat, at: nat)
    requires S >= 10 && 10 * S + Gap(S) <= at <= |BackToBack(S, n)|
    ensures Rising(BackToBack(S, n)[at..])
  {
    ZeroFrame(S);
    hide FrameWave, FrameOf;
    var w, f := BackToBack(S, n), FrameWave(S, FrameOf(0));
    var o := 10 * S + Gap(S);
    forall i | 1 <= i < |w[at..]| ensures w[at..][i - 1] ==> w[at..][i] {
      assert w[at..][i] == w[at + i] && w[at..][i - 1] == w[at + i - 1];
      assert w[at + i] == (f + Ones(n))[at + i - o] && w[at + i - 1] == (f + Ones(n))[at + i - 1 - o];
    }
  }

  /** If the corrections do not fit, at most one of the two bytes is received. */
  lemma OneIsLost(S: nat, R: nat, c: Core, n: nat)
    requires Rates(S, R) && !Fits(S, R) && Armed(c) && n >= 2
    ensures |Received(S, R, c, BackToBack(S, n))| <= 1
  {
    var w, t := BackToBack(S, n), SampleTime(S, R, 9);
    RearmedInTime(S, R);
    LateSample(S, R);
    assert !w[0] by { ZeroFrame(S); }
    var head, rest := w[..t], w[t..];
    assert w == head + rest && w[..t + 2][..t] == head;
    SilentUntil(S, R, c, w[..t + 2], 9);
    BackToBackRises(S, n, t + 1);
    assert rest[1..] == w[t + 1..];
    hide SampleTime, Samples, BackToBack, Received, RunCore, NextCore, Fits;
    LastTickOnce(S, R, RunCore(S, R, c, head), Samples(S, R, w[..t + 2])[..9], SampleLeft(R, 9), rest);
    SilentStart(S, R, c, head, rest);
  }

  lemma LateSample(S: nat, R: nat)
    requires Rates(S, R)
    ensures SampleTime(S, R, 9) + 2 <= 19 * S + Gap(S)
  {
    Grows(0, 10, R);
    assert 10 / R <= 10;
  }

  // ---- The theorem ------------------------------------------------------------------------------------------------

  /** Two requests for a zero byte, the second at the first idle cycle after the first. */
  function TwoZeros(S: nat): seq<SendIn> {
    [SendIn(true, 0)] + Quiet(JobTime(S) - 1) + ([SendIn(true, 0)] + Quiet(JobTime(S) - 1))
  }

  lemma TwoZerosShifted(S: nat, n: nat)
    requires S >= 10
    ensures Complete(S, TwoZeros(S) + Quiet(n))
    ensures Shifted(S, TwoZeros(S) + Quiet(n)) == BackToBack(S, Gap(S) + n)
  {
    var job := [SendIn(true, 0)] + Quiet(JobTime(S) - 1);
    var all, one := TwoZeros(S) + Quiet(n), job + Quiet(n);
    QuietShifted(S, n);
    assert one[JobTime(S)..] == Quiet(n) && one[0] == SendIn(true, 0);
    assert all[JobTime(S)..] == one && all[0] == SendIn(true, 0);
    hide FrameWave, FrameOf;
    var f := FrameWave(S, FrameOf(0));
    assert Complete(S, one) && Complete(S, all);
    assert Shifted(S, one) == f + Ones(Gap(S)) + Ones(n);
    assert f + Ones(Gap(S)) + Ones(n) == f + Ones(Gap(S) + n);
  }

  lemma {:induction false} QuietShifted(S: nat, n: nat)
    requires S > 0
    ensures Complete(S, Quiet(n)) && Shifted(S, Quiet(n)) == Ones(n)
  {
    if n > 0 {
      assert Quiet(n)[1..] == Quiet(n - 1);
      QuietShifted(S, n - 1);
      assert [true] + Ones(n - 1) == Ones(n);
    }
  }

  lemma TwoZerosTaken(S: nat)
    requires S >= 10
    ensures Taken(S, SenderReset(S), TwoZeros(S)) == [0, 0]
  {
    var job, s := [SendIn(true, 0)] + Quiet(JobTime(S) - 1), SenderReset(S);
    SendsFrame(S, s, job);
    SendsFrame(S, RunSender(S, s, job), job);
    RunsConcat(S, s, job, job);
  }

  /** Every run, followed by enough quiet cycles, is received as it was taken. */
  ghost predicate Faithful(S: nat, R: nat)
    requires Rates(S, R)
  {
    forall ins: seq<SendIn>, n: nat :: n >= JobTime(S) + 6 ==>
      Reported(S, R, ReceiverReset(S, R), Line(S, SenderReset(S), ins + Quiet(n))) == Taken(S, SenderReset(S), ins)
  }

  lemma ResetReceiver(S: nat, R: nat)
    requires Rates(S, R)
    ensures var r := ReceiverReset(S, R);
      ValidReceiver(r) && r.rx && r.buf == [true, true, true] && ValidCore(r.core) && Armed(r.core)
  {
  }

  /** Behind the synchroniser the two frames follow six high cycles. */
  lemma ZerosSeen(S: nat, n: nat)
    requires S >= 10 && n >= JobTime(S) + 6
    ensures var w := Line(S, SenderReset(S), TwoZeros(S) + Quiet(n));
      ([true] + [true, true, true] + w)[..|w|] == Ones(6) + BackToBack(S, Gap(S) + (n - 6))
  {
    hide NextSender, Complete, Shifted, Taken, Line, TwoZeros, BackToBack, Quiet, Ones, JobTime, SenderReset, ValidSender;
    ResetIdle(S);
    QuietEnd(S, TwoZeros(S), n);
    TwoZerosShifted(S, n - 6);
    SeenIsShifted(S, TwoZeros(S) + Quiet(n - 6), Line(S, SenderReset(S), TwoZeros(S) + Quiet(n)));
  }

  lemma LostBehindOnes(S: nat, R: nat, c: Core, n: nat)
    requires Rates(S, R) && !Fits(S, R) && ValidCore(c) && Armed(c) && n >= 2
    ensures |Received(S, R, c, Ones(6) + BackToBack(S, n))| <= 1
  {
    hide NextCore, Received, RunCore, Armed, BackToBack, Fits, Ones, ValidCore;
    OnesStayArmed(S, R, c, 6);
    SilentStart(S, R, c, Ones(6), BackToBack(S, n));
    OneIsLost(S, R, RunCore(S, R, c, Ones(6)), n);
  }

  lemma ZerosAreLost(S: nat, R: nat)
    requires Rates(S, R) && !Fits(S, R)
    ensures |Reported(S, R, ReceiverReset(S, R), Line(S, SenderReset(S), TwoZeros(S) + Quiet(JobTime(S) + 6)))| <= 1
  {
    hide NextCore, Line, Received, Reported, Armed, TwoZeros, BackToBack, Fits, Quiet, Ones, JobTime, SenderReset, ReceiverReset,
      ValidCore, ValidReceiver, ValidSender;
    ResetIdle(S);
    ResetReceiver(S, R);
    var r, n := ReceiverReset(S, R), JobTime(S) + 6;
    SynchroniserDelays(S, R, r, Line(S, SenderReset(S), TwoZeros(S) + Quiet(n)));
    ZerosSeen(S, n);
    LostBehindOnes(S, R, r.core, Gap(S) + (n - 6));
  }

  /** The line is faithful to every sequence of requests if and only if the corrections of a frame
      fit. */
  lemma FaithfulExactly(S: nat, R: nat)
    requires Rates(S, R)
    ensures Faithful(S, R) <==> Fits(S, R)
  {
    if Fits(S, R) {
      forall ins: seq<SendIn>, n: nat | n >= JobTime(S) + 6
        ensures Reported(S, R, ReceiverReset(S, R), Line(S, SenderReset(S), ins + Quiet(n))) == Taken(S, SenderReset(S), ins)
      {
        Loopback(S, R, ins, n);
      }
    } else {
      ZerosAreLost(S, R);
      TwoZerosTaken(S);
      var ins, n := TwoZeros(S), JobTime(S) + 6;
      assert |Reported(S, R, ReceiverReset(S, R), Line(S, SenderReset(S), ins + Quiet(n)))| != |Taken(S, SenderReset(S), ins)|;
    }
  }

  /** The same with the bound written out. */
  lemma FaithfulInNumbers(S: nat, R: nat)
    requires Rates(S, R)
    ensures Faithful(S, R) <==> 10 / R + 1 <= (S + 1) / 2 + if S == 10 then 1 else 0
  {
    hide Faithful;
    FaithfulExactly(S, R);
  }
}
