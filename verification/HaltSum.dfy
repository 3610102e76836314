/** The halt summaries: a tree of reductions over the halted bits, built by loops. */
module HaltSummary {
  import opened Words

  /** Some hart of group `g` is halted; group g holds the harts g * size to g * size + size - 1. */
  predicate GroupHalted(halted: seq<bool>, size: nat, g: nat)
    requires size > 0
  {
    exists h :: 0 <= h < |halted| && halted[h] && h / size == g
  }

  /** Bit i of a summary stands for group `first + i`. */
  predicate Summarises(halted: seq<bool>, sum: seq<bool>, size: nat, first: nat)
    requires size > 0
  {
    |sum| == 32 && forall i :: 0 <= i < 32 ==> (sum[i] <==> GroupHalted(halted, size, first + i))
  }

  function Zeros(n: nat): seq<bool> {
    seq(n, _ => false)
  }

  /** Every bit of `flat` stands for its group, and there are no halted groups beyond. */
  ghost predicate Groups(halted: seq<bool>, flat: seq<bool>, size: nat)
    requires size > 0
  {
    && (forall k :: 0 <= k < |flat| ==> (flat[k] <==> GroupHalted(halted, size, k)))
    && (forall k :: k >= |flat| ==> !GroupHalted(halted, size, k))
  }

  lemma GroupOf(h: nat, size: nat)
    requires size > 0
    ensures h / (32 * size) == h / size / 32
  {
    var q := h / size;
    assert h == q * size + h % size;
    GroupOfParts(q / 32, q % 32, h % size, size);
  }

  lemma GroupOfParts(a: nat, b: nat, r: nat, size: nat)
    requires b < 32 && r < size
    ensures ((32 * a + b) * size + r) / (32 * size) == a
  {
    Distribute(a, b, size);
    var m, low := 32 * size, b * size + r;
    assert a * m + low == (32 * a + b) * size + r;
    SplitAt(a, low, m);
  }

  lemma Distribute(a: nat, b: nat, size: nat)
    ensures (32 * a + b) * size == a * (32 * size) + b * size
    ensures b < 32 ==> b * size <= 31 * size
  {
    assert b < 32 ==> (31 - b) * size >= 0;
  }

  /** A group of groups has a halted hart exactly if one of its groups has. */
  lemma GroupOfGroups(halted: seq<bool>, size: nat, k: nat)
    requires size > 0
    ensures GroupHalted(halted, 32 * size, k) <==> exists j :: 32 * k <= j < 32 * k + 32 && GroupHalted(halted, size, j)
  {
    if GroupHalted(halted, 32 * size, k) {
      var h :| 0 <= h < |halted| && halted[h] && h / (32 * size) == k;
      GroupOf(h, size);
      assert GroupHalted(halted, size, h / size);
    }
    if j :| 32 * k <= j < 32 * k + 32 && GroupHalted(halted, size, j) {
      var h :| 0 <= h < |halted| && halted[h] && h / size == j;
      GroupOf(h, size);
      assert h / (32 * size) == k;
    }
  }

  /** One reduction loop: bit k of the result ors the 32 bits of word k. */
  method Reduce(ghost halted: seq<bool>, bits: seq<bool>, ghost size: nat, words: nat, width: nat) returns (flat: seq<bool>)
    requires size > 0 && Groups(halted, bits, size) && 32 * words == |bits| && words <= width
    ensures |flat| == width && Groups(halted, flat, 32 * size)
  {
    flat := Zeros(width);
    for k := 0 to words
      invariant |flat| == width
      invariant forall j :: 0 <= j < width ==> (flat[j] <==> j < k && GroupHalted(halted, 32 * size, j))
    {
      var any := false;
      for j := 32 * k to 32 * k + 32
        invariant any <==> exists m :: 32 * k <= m < j && GroupHalted(halted, size, m)
      {
        any := any || bits[j];
      }
      GroupOfGroups(halted, size, k);
      flat := flat[k := any];
    }
    forall j: nat | words <= j ensures !GroupHalted(halted, 32 * size, j) {
      GroupOfGroups(halted, size, j);
    }
  }

  /** The 32 bits of word `index`, or zero when the comparison with the truncated number of words
      says there is no such word. */
  method Pick(ghost halted: seq<bool>, bits: seq<bool>, ghost size: nat, index: nat, words: nat, limit: nat) returns (sum: seq<bool>)
    requires 0 < size && Groups(halted, bits, size) && |bits| == 32 * words && 0 < words <= limit && index < limit
    ensures words < limit ==> Summarises(halted, sum, size, 32 * index)
    ensures words == limit ==> sum == Zeros(32)
  {
    sum := Zeros(32);
    assert words < limit ==> words % limit == words;
    if index < words % limit {
      sum := bits[32 * index..32 * index + 32];
    }
  }

  function WordCount(n: nat, size: nat): nat
    requires size > 0 && n > 0
  {
    (n - 1) / size + 1
  }

  /** The summaries 0 to 2 of the group around the selected hart equal their flat definitions for
      every hart count the hardware can compare; with more harts the truncated comparison reads
      zero whatever is halted. */
  method HaltSums(halted: seq<bool>, hartsel: nat) returns (sum0: seq<bool>, sum1: seq<bool>, sum2: seq<bool>, flat2: seq<bool>)
    requires 0 < |halted| <= 0x10_0000 && hartsel < 0x10_0000
    ensures WordCount(|halted|, 32) < 0x8000 ==> Summarises(halted, sum0, 1, 32 * (hartsel / 32))
    ensures WordCount(|halted|, 32) == 0x8000 ==> sum0 == Zeros(32)
    ensures WordCount(|halted|, 0x400) < 0x400 ==> Summarises(halted, sum1, 32, 32 * (hartsel / 0x400))
    ensures WordCount(|halted|, 0x400) == 0x400 ==> sum1 == Zeros(32)
    ensures WordCount(|halted|, 0x8000) < 32 ==> Summarises(halted, sum2, 0x400, 32 * (hartsel / 0x8000))
    ensures WordCount(|halted|, 0x8000) == 32 ==> sum2 == Zeros(32)
    ensures |flat2| == 32 * WordCount(|halted|, 0x8000) && Groups(halted, flat2, 0x400)
  {
    var n := |halted|;
    var w0, w1, w2 := WordCount(n, 32), WordCount(n, 0x400), WordCount(n, 0x8000);
    WordSteps(n);
    var bits := halted + Zeros(32 * w0 - n);
    assert Groups(halted, bits, 1) by { SingleHarts(halted, bits); }
    sum0 := Pick(halted, bits, 1, hartsel / 32, w0, 0x8000);
    var flat1 := Reduce(halted, bits, 1, w0, 32 * w1);
    sum1 := Pick(halted, flat1, 32, hartsel / 0x400, w1, 0x400);
    flat2 := Reduce(halted, flat1, 32, w1, 32 * w2);
    sum2 := Pick(halted, flat2, 0x400, hartsel / 0x8000, w2, 32);
  }

  lemma SingleHarts(halted: seq<bool>, bits: seq<bool>)
    requires |bits| >= |halted| && (forall k :: 0 <= k < |halted| ==> bits[k] == halted[k])
    requires forall k :: |halted| <= k < |bits| ==> !bits[k]
    ensures Groups(halted, bits, 1)
  {
    forall k: nat ensures GroupHalted(halted, 1, k) <==> k < |halted| && halted[k] {
      if k < |halted| && halted[k] { assert k / 1 == k; }
    }
  }

  lemma WordSteps(n: nat)
    requires 0 < n <= 0x10_0000
    ensures n <= 32 * WordCount(n, 32)
    ensures WordCount(n, 32) <= 32 * WordCount(n, 0x400) && WordCount(n, 0x400) <= 32 * WordCount(n, 0x8000)
    ensures WordCount(n, 32) <= 0x8000 && WordCount(n, 0x400) <= 0x400 && WordCount(n, 0x8000) <= 32
  {
  }

  /** Summary 3 covers all harts at once. Its loop runs over one word too many when the number of
      harts is a multiple of 2^15, which is why that case is excluded. */
  method HaltSum3(halted: seq<bool>, flat2: seq<bool>) returns (sum3: seq<bool>)
    requires 0 < |halted| < 0x10_0000 && |halted| % 0x8000 != 0
    requires |flat2| == 32 * WordCount(|halted|, 0x8000) && Groups(halted, flat2, 0x400)
    ensures Summarises(halted, sum3, 0x8000, 0)
  {
    var n := |halted|;
    LastWord(n);
    sum3 := Reduce(halted, flat2, 0x400, n / 0x8000 + 1, 32);
  }

  lemma LastWord(n: nat)
    requires 0 < n < 0x10_0000
    ensures n / 0x8000 + 1 == WordCount(n, 0x8000) <==> n % 0x8000 != 0
    ensures n / 0x8000 + 1 == WordCount(n, 0x8000) + 1 <==> n % 0x8000 == 0
    ensures n / 0x8000 + 1 <= 32
  {
  }

  /** The largest hart counts the three comparisons work for. */
  lemma CountLimits(n: nat)
    requires 0 < n <= 0x10_0000
    ensures WordCount(n, 32) < 0x8000 <==> n <= 0x10_0000 - 32
    ensures WordCount(n, 0x400) < 0x400 <==> n <= 0x10_0000 - 0x400
    ensures WordCount(n, 0x8000) < 32 <==> n <= 31 * 0x8000
  {
  }
}
