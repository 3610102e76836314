/** Bit vectors to bytes and back: the transmit serializer and the receive deserializer. */
module Serdes {
  import opened Words

  // ---- Bytes and bits ---------------------------------------------------------------------------

  /** Bits, lowest first, and the number they stand for. */
  function Value(o: seq<bool>): nat {
    if |o| == 0 then 0 else (if o[0] then 1 else 0) + 2 * Value(o[1..])
  }

  function BitsOf(x: nat, n: nat): (o: seq<bool>)
    ensures |o| == n
    decreases n
  {
    if n == 0 then [] else [x % 2 == 1] + BitsOf(x / 2, n - 1)
  }

  lemma {:induction false} BitsOfValue(o: seq<bool>)
    ensures BitsOf(Value(o), |o|) == o
    ensures Value(o) < Pow2(|o|)
  {
    if |o| > 0 {
      BitsOfValue(o[1..]);
      assert Value(o) / 2 == Value(o[1..]) && (Value(o) % 2 == 1 <==> o[0]);
      assert o == [o[0]] + o[1..];
    }
  }

  lemma {:induction false} ValueOfBits(x: nat, n: nat)
    requires x < Pow2(n)
    ensures Value(BitsOf(x, n)) == x
    decreases n
  {
    if n > 0 {
      ValueOfBits(x / 2, n - 1);
      assert BitsOf(x, n)[1..] == BitsOf(x / 2, n - 1);
    }
  }

  lemma {:induction false} ValueOfConcat(a: seq<bool>, b: seq<bool>)
    ensures Value(a + b) == Value(a) + Pow2(|a|) * Value(b)
    decreases |a|
  {
    if |a| == 0 {
      assert a + b == b;
    } else {
      assert (a + b)[0] == a[0] && (a + b)[1..] == a[1..] + b;
      ValueOfConcat(a[1..], b);
      Doubled(Value(a[1..]), Pow2(|a| - 1), Value(b));
    }
  }

  lemma Doubled(x: nat, p: nat, y: nat)
    ensures 2 * (x + p * y) == 2 * x + (2 * p) * y
  {
  }

  /** Bit k of a number's bits is the bit of weight 2^k. */
  lemma {:induction false} BitsByDivision(x: nat, n: nat, k: nat)
    requires k < n
    ensures BitsOf(x, n)[k] <==> x / Pow2(k) % 2 == 1
    decreases n
  {
    if k > 0 {
      BitsByDivision(x / 2, n - 1, k - 1);
      HalvesTwice(x, Pow2(k - 1));
    }
  }

  lemma ByteBound()
    ensures Pow2(8) == 0x100
  {
    assert Pow2(4) == 16;
  }

  function ByteOf(o: seq<bool>): Byte
    requires |o| == 8
  {
    BitsOfValue(o);
    ByteBound();
    Value(o)
  }

  /** Number of bytes that hold `length` bits. */
  function Octets(length: nat): nat {
    (length + 7) / 8
  }

  /** Eight bits from a position on, zeros past the end. */
  function Octet(bits: seq<bool>, length: nat, at: nat): (o: seq<bool>)
    requires length <= |bits|
    ensures |o| == 8 && forall j :: 0 <= j < 8 ==> (o[j] <==> at + j < length && bits[at + j])
  {
    seq(8, j requires 0 <= j < 8 => at + j < length && bits[at + j])
  }

  function Serialized(bits: seq<bool>, length: nat): (bytes: seq<Byte>)
    requires length <= |bits|
    ensures |bytes| == Octets(length)
  {
    seq(Octets(length), k requires 0 <= k < Octets(length) => ByteOf(Octet(bits, length, 8 * k)))
  }

  lemma {:induction false} ValueDropped(o: seq<bool>, k: nat)
    requires k <= |o|
    ensures Value(o) / Pow2(k) == Value(o[k..])
    decreases k
  {
    if k == 0 {
      assert o[0..] == o;
    } else {
      ValueDropped(o[1..], k - 1);
      assert o[1..][k - 1..] == o[k..];
      assert Value(o) / 2 == Value(o[1..]);
      HalvesTwice(Value(o), Pow2(k - 1));
    }
  }

  lemma {:induction false} ValueOfZeros(n: nat)
    ensures Value(seq(n, _ => false)) == 0
    decreases n
  {
    if n > 0 {
      assert seq(n, _ => false)[1..] == seq(n - 1, _ => false);
      ValueOfZeros(n - 1);
    }
  }

  lemma OctetIsPrefix(v: seq<bool>)
    requires |v| >= 8
    ensures v == Octet(v, |v|, 0) + v[8..]
  {
    assert Octet(v, |v|, 0) == v[..8];
  }

  lemma EightAndRest(o: seq<bool>, rest: seq<bool>)
    requires |o| == 8
    ensures Value(o + rest) == Value(rest) * 0x100 + Value(o)
  {
    hide Value, Pow2;
    ByteBound();
    ValueOfConcat(o, rest);
  }

  /** Eight bits of a vector, padded, are its value modulo 256. */
  lemma LowByte(v: seq<bool>)
    ensures Value(Octet(v, |v|, 0)) == Value(v) % 0x100
  {
    hide Value, Octet;
    OctetBound(Octet(v, |v|, 0));
    if |v| >= 8 {
      OctetIsPrefix(v);
      EightAndRest(Octet(v, |v|, 0), v[8..]);
      Remainder(Value(v), Value(v[8..]), Value(Octet(v, |v|, 0)));
    } else {
      PaddedByte(v, Octet(v, |v|, 0));
    }
  }

  lemma Remainder(n: nat, high: nat, low: nat)
    requires n == high * 0x100 + low && low < 0x100
    ensures n % 0x100 == low
  {
    SplitAt(high, low, 0x100);
  }

  lemma OctetBound(o: seq<bool>)
    requires |o| == 8
    ensures Value(o) < 0x100
  {
    hide Value, BitsOf, Pow2;
    ByteBound();
    BitsOfValue(o);
  }

  lemma PaddedByte(v: seq<bool>, o: seq<bool>)
    requires |v| < 8 && o == Octet(v, |v|, 0)
    ensures Value(o) == Value(v) && Value(v) < 0x100 && Value(v) % 0x100 == Value(v)
  {
    hide Value, BitsOf;
    var pad := seq(8 - |v|, _ => false);
    assert o == v + pad;
    ValueOfConcat(v, pad);
    ValueOfZeros(8 - |v|);
    ByteBound();
    BitsOfValue(o);
    SplitAt(0, Value(v), 0x100);
  }

  /** Byte k of the serialized vector is byte k of the number it stands for, the lowest first. */
  lemma SerializedByDivision(bits: seq<bool>, length: nat, k: nat)
    requires length <= |bits| && k < Octets(length)
    ensures Serialized(bits, length)[k] == Value(bits[..length]) / Pow2(8 * k) % 0x100
  {
    var v := bits[..length];
    assert 8 * k <= length;
    ValueDropped(v, 8 * k);
    var rest := v[8 * k..];
    assert Octet(bits, length, 8 * k) == Octet(rest, |rest|, 0);
    LowByte(rest);
  }

  // ---- The serializer -----------------------------------------------------------------------------

  /** Range of a counter that is as wide as the numbers below `maxBits`. */
  function CounterRange(maxBits: nat): (m: nat)
    requires maxBits > 0
    ensures m >= maxBits
  {
    PowerFrom(1, maxBits)
  }

  /** The range is the least power of two that is not below the width. */
  lemma CounterRangeIsLeast(maxBits: nat) returns (k: nat)
    requires maxBits > 0
    ensures CounterRange(maxBits) == Pow2(k) && maxBits <= Pow2(k) && (k > 0 ==> Pow2(k - 1) < maxBits)
  {
    assert Pow2(0) == 1;
    k := PowerFromIsLeast(0, maxBits);
  }

  datatype Ser = Ser(count: nat, busy: bool, done: bool, byte: Byte, write: bool)

  /** Inputs of a cycle besides the data, which is held: run and the readiness of the transmitter. */
  datatype SerIn = SerIn(run: bool, ready: bool)

  const SER_RESET := Ser(0, false, false, 0, false)

  function NextSer(maxBits: nat, bits: seq<bool>, length: nat, s: Ser, i: SerIn): Ser
    requires maxBits > 0 && length <= |bits|
  {
    var byte := ByteOf(Octet(bits, length, s.count));
    var busy := s.busy || (i.run && !s.done);
    if !s.busy then Ser(s.count, busy, s.done, byte, false)
    else if s.count >= length then Ser(s.count, false, true, byte, false)
    else if s.write && !i.ready then Ser((s.count + 8) % CounterRange(maxBits), busy, s.done, byte, false)
    else Ser(s.count, busy, s.done, byte, i.ready)
  }

  class TxSerializer {
    const maxBits: nat
    var count: nat
    var busy: bool
    var done: bool
    var byte: Byte
    var write: bool

    function State(): Ser
      reads this
    {
      Ser(count, busy, done, byte, write)
    }

    constructor (maxBits: nat)
      requires maxBits > 0
      ensures State() == SER_RESET && this.maxBits == maxBits
    {
      this.maxBits := maxBits;
      count, busy, done, byte, write := 0, false, false, 0, false;
    }

    /** The bit loop: the byte at the counter, padded with zeros. */
    method PickByte(bits: seq<bool>, length: nat) returns (b: Byte)
      requires length <= |bits|
      ensures b == ByteOf(Octet(bits, length, count))
    {
      var o: seq<bool> := [];
      for j := 0 to 8
        invariant |o| == j && forall m :: 0 <= m < j ==> (o[m] <==> count + m < length && bits[count + m])
      {
        o := o + [if count + j < length then bits[count + j] else false];
      }
      b := ByteOf(o);
      assert o == Octet(bits, length, count);
    }

    /** One rising clock edge outside reset. */
    method Tick(bits: seq<bool>, length: nat, i: SerIn)
      requires maxBits > 0 && length <= |bits|
      modifies this
      ensures State() == NextSer(maxBits, bits, length, old(State()), i)
    {
      hide CounterRange, ByteOf;
      var wasWrite, wasBusy := write, busy;
      var b := PickByte(bits, length);
      byte, write := b, false;
      if i.run && !done { busy := true; }
      if wasBusy {
        if count < length {
          if i.ready { write := true; }
          if wasWrite && !i.ready {
            write := false;
            count := (count + 8) % CounterRange(maxBits);
          }
        } else {
          done, busy := true, false;
        }
      }
    }
  }

  // ---- The deserializer -----------------------------------------------------------------------------

  datatype Deser = Deser(count: nat, busy: bool, done: bool, data: seq<bool>)

  datatype DeserIn = DeserIn(run: bool, byte: Byte)

  function Zeros(n: nat): seq<bool> {
    seq(n, _ => false)
  }

  function DeserReset(maxBits: nat): Deser {
    Deser(0, false, false, Zeros(maxBits))
  }

  /** A byte written into the vector at a bit position. */
  function Spliced(data: seq<bool>, at: nat, b: Byte): (r: seq<bool>)
    requires at + 8 <= |data|
    ensures |r| == |data|
  {
    data[..at] + BitsOf(b, 8) + data[at + 8..]
  }

  predicate FitsDeser(maxBits: nat, length: nat) {
    maxBits > 0 && maxBits % 8 == 0 && length <= maxBits
  }

  predicate ValidDeser(maxBits: nat, length: nat, s: Deser) {
    FitsDeser(maxBits, length) && |s.data| == maxBits && s.count % 8 == 0
  }

  function NextDeser(maxBits: nat, length: nat, s: Deser, i: DeserIn): Deser
    requires ValidDeser(maxBits, length, s)
  {
    if s.count < length then
      if i.run then Deser((s.count + 8) % CounterRange(maxBits), true, false, Spliced(s.data, s.count, i.byte))
      else s.(done := false)
    else if s.busy then s.(done := true)
    else s
  }

  class RxDeserializer {
    const maxBits: nat
    var count: nat
    var busy: bool
    var done: bool
    var data: seq<bool>

    function State(): Deser
      reads this
    {
      Deser(count, busy, done, data)
    }

    constructor (maxBits: nat)
      ensures State() == DeserReset(maxBits) && this.maxBits == maxBits
    {
      this.maxBits := maxBits;
      count, busy, done, data := 0, false, false, Zeros(maxBits);
    }

    /** One rising clock edge. */
    method Tick(reset: bool, length: nat, i: DeserIn)
      requires ValidDeser(maxBits, length, State())
      modifies this
      ensures State() == if reset then DeserReset(maxBits) else NextDeser(maxBits, length, old(State()), i)
    {
      if reset {
        count, busy, done, data := 0, false, false, Zeros(maxBits);
      } else if count < length {
        done := false;
        if i.run {
          busy := true;
          data := data[..count] + BitsOf(i.byte, 8) + data[count + 8..];
          count := (count + 8) % CounterRange(maxBits);
        }
      } else if busy {
        done := true;
      }
    }
  }

  // ---- The deserializer over a run ---------------------------------------------------------------------

  /** No counter wraps: the last count is still in range. With a vector length that is a multiple
      of eight but no power of two this holds for every length. */
  predicate NoWrap(maxBits: nat, length: nat)
    requires maxBits > 0
  {
    8 * Octets(length) < CounterRange(maxBits)
  }

  lemma NoPowerNoWrap(maxBits: nat, length: nat)
    requires FitsDeser(maxBits, length) && maxBits != CounterRange(maxBits)
    ensures NoWrap(maxBits, length)
  {
  }

  function BytesIn(run: seq<DeserIn>): seq<Byte>
    decreases |run|
  {
    if |run| == 0 then [] else (if run[0].run then [run[0].byte] else []) + BytesIn(run[1..])
  }

  function RunDeser(maxBits: nat, length: nat, s: Deser, run: seq<DeserIn>): (f: Deser)
    requires ValidDeser(maxBits, length, s)
    ensures ValidDeser(maxBits, length, f)
    decreases |run|
  {
    if |run| == 0 then s
    else (NextStaysValid(maxBits, length, s, run[0]); RunDeser(maxBits, length, NextDeser(maxBits, length, s, run[0]), run[1..]))
  }

  /** The count goes up by a byte, or back to zero at the end of its range. */
  lemma CountWraps(maxBits: nat, length: nat, count: nat)
    requires FitsDeser(maxBits, length) && count % 8 == 0 && count < length
    ensures count + 8 <= maxBits
    ensures (count + 8) % CounterRange(maxBits) == if count + 8 == CounterRange(maxBits) then 0 else count + 8
  {
    hide CounterRange;
    AtMostRange(count + 8, CounterRange(maxBits));
  }

  lemma NextStaysValid(maxBits: nat, length: nat, s: Deser, i: DeserIn)
    requires ValidDeser(maxBits, length, s)
    ensures ValidDeser(maxBits, length, NextDeser(maxBits, length, s, i))
  {
    hide CounterRange, NoWrap;
    if s.count < length { CountWraps(maxBits, length, s.count); }
  }

  lemma CountStep(maxBits: nat, length: nat, count: nat)
    requires maxBits > 0 && NoWrap(maxBits, length) && count % 8 == 0
    ensures count < length ==> (count + 8) % CounterRange(maxBits) == count + 8 && count + 8 <= 8 * Octets(length)
  {
    hide CounterRange;
    if count < length {
      assert (count + 8) / 8 <= (length + 7) / 8;
    }
  }

  /** The vector holds the bytes `got`, lowest first, and zeros after them. */
  predicate Holds(data: seq<bool>, got: seq<Byte>) {
    8 * |got| <= |data| && forall i :: 0 <= i < |data| ==> (data[i] <==> i / 8 < |got| && BitsOf(got[i / 8], 8)[i % 8])
  }

  /** What the deserializer knows: the bytes so far, at most as many as it needs. */
  predicate Collected(length: nat, s: Deser, got: seq<Byte>) {
    && Holds(s.data, got) && s.count == 8 * |got| && |got| <= Octets(length) && (s.busy <==> |got| > 0)
    && (s.done ==> |got| == Octets(length))
  }

  lemma SplicedHolds(data: seq<bool>, got: seq<Byte>, b: Byte)
    requires Holds(data, got) && 8 * |got| + 8 <= |data|
    ensures Holds(Spliced(data, 8 * |got|, b), got + [b])
  {
    hide BitsOf;
    var r, at := Spliced(data, 8 * |got|, b), 8 * |got|;
    forall i | 0 <= i < |r| ensures r[i] <==> i / 8 < |got| + 1 && BitsOf((got + [b])[i / 8], 8)[i % 8] {
      if at <= i < at + 8 { assert i / 8 == |got| && i % 8 == i - at; }
    }
  }

  /** The first `n` elements, or all if there are fewer. */
  function Capped<T>(q: seq<T>, n: nat): seq<T> {
    if |q| <= n then q else q[..n]
  }

  /** One cycle of collecting. */
  lemma CollectsByte(maxBits: nat, length: nat, s: Deser, got: seq<Byte>, i: DeserIn)
    requires ValidDeser(maxBits, length, s) && NoWrap(maxBits, length) && Collected(length, s, got)
    ensures var next := NextDeser(maxBits, length, s, i);
      Collected(length, next, if i.run && |got| < Octets(length) then got + [i.byte] else got)
  {
    hide CounterRange, Holds, Spliced, NoWrap;
    CountStep(maxBits, length, s.count);
    if s.count < length { SplicedHolds(s.data, got, i.byte); }
  }

  /** For any pattern of run cycles the deserializer collects exactly the first Octets(length)
      bytes it is given. */
  lemma {:induction false} CollectsBytes(maxBits: nat, length: nat, s: Deser, got: seq<Byte>, run: seq<DeserIn>)
    requires ValidDeser(maxBits, length, s) && NoWrap(maxBits, length) && Collected(length, s, got)
    ensures Collected(length, RunDeser(maxBits, length, s, run), Capped(got + BytesIn(run), Octets(length)))
    decreases |run|
  {
    hide CounterRange, Holds, Spliced, NoWrap, Collected, NextDeser, Capped, BytesIn, Octets;
    if |run| == 0 {
      NothingMore(length, s, got);
    } else {
      var i, rest := run[0], run[1..];
      CollectedBound(length, s, got);
      NextStaysValid(maxBits, length, s, i);
      CollectsByte(maxBits, length, s, got, i);
      var got' := if i.run && |got| < Octets(length) then got + [i.byte] else got;
      CollectsBytes(maxBits, length, NextDeser(maxBits, length, s, i), got', rest);
      OneMore(got, run, Octets(length));
    }
  }

  lemma NothingMore(length: nat, s: Deser, got: seq<Byte>)
    requires Collected(length, s, got)
    ensures Capped(got + BytesIn([]), Octets(length)) == got
  {
    hide Holds;
    assert got + [] == got;
  }

  lemma OneMore(got: seq<Byte>, run: seq<DeserIn>, n: nat)
    requires |run| > 0 && |got| <= n
    ensures var got' := if run[0].run && |got| < n then got + [run[0].byte] else got;
      Capped(got' + BytesIn(run[1..]), n) == Capped(got + BytesIn(run), n)
  {
    var i, rest := run[0], BytesIn(run[1..]);
    if !i.run {
      assert [] + rest == rest;
    } else if |got| < n {
      Associates(got, [i.byte], rest);
    } else {
      FullIgnores(got, rest, BytesIn(run), n);
    }
  }

  lemma CollectedBound(length: nat, s: Deser, got: seq<Byte>)
    requires Collected(length, s, got)
    ensures |got| <= Octets(length)
  {
  }

  lemma FullIgnores(got: seq<Byte>, a: seq<Byte>, b: seq<Byte>, n: nat)
    requires |got| == n
    ensures Capped(got + a, n) == got == Capped(got + b, n)
  {
  }

  /** The vector that holds the serialized bytes is the original one, cut to its length. */
  lemma HoldsOriginal(bits: seq<bool>, length: nat, data: seq<bool>)
    requires length <= |bits| && Holds(data, Serialized(bits, length)) && |data| == |bits|
    ensures forall i :: 0 <= i < |data| ==> (data[i] <==> i < length && bits[i])
  {
    hide ByteOf, BitsOf;
    forall i | 0 <= i < |data| ensures data[i] <==> i < length && bits[i] {
      var k := i / 8;
      if k < Octets(length) {
        SerializedBits(bits, length, k);
        assert 8 * k + i % 8 == i;
      }
    }
  }

  lemma SerializedBits(bits: seq<bool>, length: nat, k: nat)
    requires length <= |bits| && k < Octets(length)
    ensures BitsOf(Serialized(bits, length)[k], 8) == Octet(bits, length, 8 * k)
  {
    BitsOfValue(Octet(bits, length, 8 * k));
  }

  /** The round trip: deserializing the serialized bytes, with any pauses between them and
      whatever follows, yields the original bits and zeros above them. */
  lemma SerdesRoundTrip(maxBits: nat, bits: seq<bool>, length: nat, run: seq<DeserIn>)
    requires FitsDeser(maxBits, length) && |bits| == maxBits && NoWrap(maxBits, length)
    requires Serialized(bits, length) <= BytesIn(run)
    ensures ValidDeser(maxBits, length, DeserReset(maxBits))
    ensures var f := RunDeser(maxBits, length, DeserReset(maxBits), run);
      |f.data| == maxBits && f.count == 8 * Octets(length)
      && forall i :: 0 <= i < maxBits ==> (f.data[i] <==> i < length && bits[i])
  {
    var bytes := Serialized(bits, length);
    assert Collected(length, DeserReset(maxBits), []);
    hide ByteOf, BitsOf, RunDeser, CounterRange, Holds, Serialized, NoWrap;
    CollectsBytes(maxBits, length, DeserReset(maxBits), [], run);
    assert [] + BytesIn(run) == BytesIn(run);
    assert Capped(BytesIn(run), Octets(length)) == bytes;
    HoldsOriginal(bits, length, RunDeser(maxBits, length, DeserReset(maxBits), run).data);
  }

  // ---- When it completes -----------------------------------------------------------------------------------

  lemma {:induction false} RunDeserConcat(maxBits: nat, length: nat, s: Deser, a: seq<DeserIn>, b: seq<DeserIn>)
    requires ValidDeser(maxBits, length, s)
    ensures RunDeser(maxBits, length, s, a + b) == RunDeser(maxBits, length, RunDeser(maxBits, length, s, a), b)
    decreases |a|
  {
    hide NextDeser, ValidDeser;
    if |a| == 0 {
      assert a + b == b;
    } else {
      NextStaysValid(maxBits, length, s, a[0]);
      assert (a + b)[0] == a[0] && (a + b)[1..] == a[1..] + b;
      RunDeserConcat(maxBits, length, NextDeser(maxBits, length, s, a[0]), a[1..], b);
    }
  }

  /** Without a wrap the word is complete exactly from the clock after its last byte on. */
  lemma DoneAfterLastByte(maxBits: nat, length: nat, run: seq<DeserIn>, i: DeserIn)
    requires FitsDeser(maxBits, length) && NoWrap(maxBits, length) && length > 0
    ensures RunDeser(maxBits, length, DeserReset(maxBits), run + [i]).done <==> |BytesIn(run)| >= Octets(length)
  {
    var s0 := DeserReset(maxBits);
    assert Collected(length, s0, []);
    var s := RunDeser(maxBits, length, s0, run);
    RunDeserConcat(maxBits, length, s0, run, [i]);
    OneClock(maxBits, length, s, i);
    CollectsBytes(maxBits, length, s0, [], run);
    assert [] + BytesIn(run) == BytesIn(run);
    hide RunDeser, BytesIn, Holds, Spliced, CounterRange, NoWrap;
    FullCount(length, |Capped(BytesIn(run), Octets(length))|);
  }

  lemma OneClock(maxBits: nat, length: nat, s: Deser, i: DeserIn)
    requires ValidDeser(maxBits, length, s)
    ensures RunDeser(maxBits, length, s, [i]) == NextDeser(maxBits, length, s, i)
  {
    NextStaysValid(maxBits, length, s, i);
    hide NextDeser;
    assert [i][1..] == [];
  }

  lemma FullCount(length: nat, n: nat)
    requires n <= Octets(length)
    ensures 8 * n < length <==> n < Octets(length)
  {
  }

  /** Where the last byte wraps the count no run ever completes. */
  lemma {:induction false} FullVectorWraps(maxBits: nat, length: nat, s: Deser, run: seq<DeserIn>)
    requires ValidDeser(maxBits, length, s) && !NoWrap(maxBits, length) && length < CounterRange(maxBits)
    requires s.count < length && !s.done
    ensures !RunDeser(maxBits, length, s, run).done
    decreases |run|
  {
    if |run| > 0 {
      NextStaysValid(maxBits, length, s, run[0]);
      CountWraps(maxBits, length, s.count);
      BackToStart(maxBits, length, s.count);
      FullVectorWraps(maxBits, length, NextDeser(maxBits, length, s, run[0]), run[1..]);
    }
  }

  lemma BackToStart(maxBits: nat, length: nat, count: nat)
    requires maxBits > 0 && !NoWrap(maxBits, length) && count % 8 == 0 && count < length
    ensures count + 8 < CounterRange(maxBits) ==> count + 8 < length
  {
    hide CounterRange;
    assert count + 8 >= length ==> 8 * Octets(length) <= count + 8;
  }

  lemma {:induction false} NothingToDo(maxBits: nat, s: Deser, run: seq<DeserIn>)
    requires ValidDeser(maxBits, 0, s) && !s.busy && !s.done
    ensures !RunDeser(maxBits, 0, s, run).done
    decreases |run|
  {
    if |run| > 0 { NothingToDo(maxBits, NextDeser(maxBits, 0, s, run[0]), run[1..]); }
  }

  /** The length as it arrives at the port, which is as wide as the counters. */
  function PortLength(maxBits: nat, length: nat): nat
    requires maxBits > 0
  {
    length % CounterRange(maxBits)
  }

  ghost predicate Completes(maxBits: nat, length: nat)
    requires FitsDeser(maxBits, length)
  {
    exists run: seq<DeserIn> :: RunDeser(maxBits, length, DeserReset(maxBits), run).done
  }

  lemma PortFits(maxBits: nat, length: nat)
    requires FitsDeser(maxBits, length)
    ensures FitsDeser(maxBits, PortLength(maxBits, length)) && PortLength(maxBits, length) < CounterRange(maxBits)
    ensures PortLength(maxBits, length) == if length == CounterRange(maxBits) then 0 else length
  {
    hide CounterRange;
    AtMostRange(length, CounterRange(maxBits));
  }

  /** A word of some length can be received if and only if its last count fits the counter: where
      it does not, either the count starts again for ever or the port takes the length for zero. */
  lemma CompletesExactly(maxBits: nat, length: nat)
    requires FitsDeser(maxBits, length) && length > 0
    ensures FitsDeser(maxBits, PortLength(maxBits, length))
    ensures Completes(maxBits, PortLength(maxBits, length)) <==> NoWrap(maxBits, length)
  {
    PortFits(maxBits, length);
    var port, s := PortLength(maxBits, length), DeserReset(maxBits);
    hide CounterRange, RunDeser, BytesIn;
    if NoWrap(maxBits, length) {
      var bytes := seq(Octets(length), _ => DeserIn(true, 0));
      AllRun(bytes);
      DoneAfterLastByte(maxBits, length, bytes, DeserIn(false, 0));
      assert RunDeser(maxBits, port, s, bytes + [DeserIn(false, 0)]).done;
    } else {
      forall run: seq<DeserIn> ensures !RunDeser(maxBits, port, s, run).done {
        if port == 0 { NothingToDo(maxBits, s, run); } else { FullVectorWraps(maxBits, port, s, run); }
      }
    }
  }

  lemma {:induction false} AllRun(run: seq<DeserIn>)
    requires forall k :: 0 <= k < |run| ==> run[k].run
    ensures |BytesIn(run)| == |run|
    decreases |run|
  {
    if |run| > 0 { AllRun(run[1..]); }
  }

  /** This happens only to vectors as long as the counter's range, with a length in the last byte. */
  lemma WrapsOnlyWhenFull(maxBits: nat, length: nat)
    requires FitsDeser(maxBits, length)
    ensures NoWrap(maxBits, length) <==> !(maxBits == CounterRange(maxBits) && length > maxBits - 8)
  {
  }
}
