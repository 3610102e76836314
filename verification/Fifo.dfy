/** The ring buffer behind the serial receiver, and the bounded queue it refines. */
module RingBuffer {
  import opened Words

  // ---- The queue --------------------------------------------------------------------------------

  /** One cycle of a user: write enable with its datum, and read enable. */
  datatype Request<T> = Request(we: bool, datum: T, re: bool)

  /** A bounded queue of `n` places: a write while full is dropped, a read while empty does nothing. */
  function NextQueue<T>(n: nat, q: seq<T>, i: Request<T>): seq<T> {
    (if i.re && |q| > 0 then q[1..] else q) + (if i.we && |q| < n then [i.datum] else [])
  }

  /** The one combination the hardware gets wrong. */
  predicate Overlooks<T>(q: seq<T>, i: Request<T>) {
    i.re && i.we && |q| == 0
  }

  // ---- The ring ------------------------------------------------------------------------------------

  function Inc(n: nat, p: nat): nat {
    if p + 1 == n then 0 else p + 1
  }

  /** Position `k` places after `r`. */
  function Index(n: nat, r: nat, k: nat): nat {
    if r + k < n then r + k else r + k - n
  }

  /** `c` cells from position `r` on, around the end. */
  function Window<T>(cells: seq<T>, r: nat, c: nat): (q: seq<T>)
    requires r < |cells| && c <= |cells|
    ensures |q| == c && forall k :: 0 <= k < c ==> q[k] == cells[Index(|cells|, r, k)]
  {
    seq(c, k requires 0 <= k < c => cells[Index(|cells|, r, k)])
  }

  lemma Pop<T>(cells: seq<T>, r: nat, c: nat)
    requires r < |cells| && 0 < c <= |cells|
    ensures Window(cells, r, c)[1..] == Window(cells, Inc(|cells|, r), c - 1)
  {
  }

  lemma Push<T>(cells: seq<T>, r: nat, c: nat, x: T)
    requires r < |cells| && c < |cells|
    ensures Window(cells[Index(|cells|, r, c) := x], r, c + 1) == Window(cells, r, c) + [x]
  {
  }

  /** One clock of the cells does what the queue does, unless a write meets a read of the empty buffer. */
  lemma RingStep<T>(cells: seq<T>, r: nat, c: nat, i: Request<T>)
    requires r < |cells| && c <= |cells|
    ensures var n, q := |cells|, Window(cells, r, c);
      var cells' := if i.we && c < n then cells[Index(n, r, c) := i.datum] else cells;
      NextQueue(n, q, i)
      == if i.re && c > 0 then Window(cells', Inc(n, r), if i.we && c < n then c else c - 1)
         else Window(cells', r, if i.we && c < n then c + 1 else c)
  {
    var n, q := |cells|, Window(cells, r, c);
    hide Window, Index;
    if i.we && c < n {
      Push(cells, r, c, i.datum);
      var cells' := cells[Index(n, r, c) := i.datum];
      if i.re && c > 0 {
        Pop(cells', r, c + 1);
        assert (q + [i.datum])[1..] == q[1..] + [i.datum];
      }
    } else if i.re && c > 0 {
      Pop(cells, r, c);
    }
  }

  /** Pointer steps are steps modulo the size. */
  lemma IncIsModulo(n: nat, p: nat)
    requires p < n
    ensures Inc(n, p) == (p + 1) % n
  {
  }

  /** Cells in use between the pointers, also when they coincide. */
  function Occupancy(n: nat, r: nat, w: nat, full: bool): (c: nat)
    requires r < n && w < n
    ensures c <= n
  {
    if full then n else if w >= r then w - r else w + n - r
  }

  /** What the pointer steps do to the occupancy. */
  lemma PointersMove(n: nat, r: nat, w: nat, full: bool)
    requires r < n && w < n && (full ==> w == r)
    ensures Inc(n, r) < n && Inc(n, w) < n && (full ==> Occupancy(n, r, w, full) == n)
    ensures !full ==> Occupancy(n, r, w, full) < n && w == Index(n, r, Occupancy(n, r, w, full))
    ensures w != r || full ==>
      Occupancy(n, Inc(n, r), w, false) == Occupancy(n, r, w, full) - 1 && (Inc(n, r) == w <==> Occupancy(n, r, w, full) == 1)
    ensures !full ==>
      && Occupancy(n, r, Inc(n, w), Inc(n, w) == r) == Occupancy(n, r, w, full) + 1
      && Occupancy(n, Inc(n, r), Inc(n, w), false) == Occupancy(n, r, w, full)
    ensures Inc(n, r) == Inc(n, w) <==> r == w
  {
  }

  class Fifo<T> {
    const ram: array<T>
    var wPtr: nat
    var rPtr: nat
    var full: bool
    var empty: bool

    ghost predicate Valid()
      reads this
    {
      && ram.Length > 0 && wPtr < ram.Length && rPtr < ram.Length
      && !(full && empty) && (full || empty <==> wPtr == rPtr)
    }

    ghost function Count(): (c: nat)
      requires Valid()
      reads this
      ensures c <= ram.Length && (full <==> c == ram.Length) && (empty <==> c == 0)
    {
      Occupancy(ram.Length, rPtr, wPtr, full)
    }

    ghost function Contents(): (q: seq<T>)
      requires Valid()
      reads this, ram
    {
      Window(ram[..], rPtr, Count())
    }

    constructor (n: nat, filler: T)
      requires n > 0
      ensures Valid() && fresh(ram) && ram.Length == n && Contents() == []
    {
      ram := new T[n](_ => filler);
      wPtr, rPtr, full, empty := 0, 0, false, true;
    }

    /** The read port shows the oldest element. */
    method Head() returns (x: T)
      requires Valid() && !empty
      ensures x == Contents()[0]
    {
      x := ram[rPtr];
    }

    /** One rising clock edge. The buffer does what the queue does, except that a write together
        with a read of the empty buffer is lost. */
    method Tick(i: Request<T>)
      requires Valid()
      modifies this, ram
      ensures Valid()
      ensures Contents() == if Overlooks(old(Contents()), i) then [] else NextQueue(ram.Length, old(Contents()), i)
    {
      hide Window, NextQueue, Occupancy, Inc, Index;
      PointersMove(ram.Length, rPtr, wPtr, full);
      var wEn := i.we && !full;
      var wInc, rInc := Inc(ram.Length, wPtr), Inc(ram.Length, rPtr);
      ghost var cells, c := ram[..], Count();
      RingStep(cells, rPtr, c, i);
      if wEn { ram[wPtr] := i.datum; }
      assert wEn ==> ram[..] == cells[wPtr := i.datum];
      if !wEn && i.re {
        if !empty {
          rPtr, full := rInc, false;
          if rInc == wPtr { empty := true; }
        }
      } else if wEn && !i.re {
        wPtr, empty := wInc, false;
        if wInc == rPtr { full := true; }
      } else if wEn && i.re {
        wPtr, rPtr := wInc, rInc;
      }
    }
  }

  // ---- Whole runs -------------------------------------------------------------------------------------

  function RunQueue<T>(n: nat, q: seq<T>, run: seq<Request<T>>): seq<T>
    decreases |run|
  {
    if |run| == 0 then q else RunQueue(n, NextQueue(n, q, run[0]), run[1..])
  }

  /** Data taken out, oldest first. */
  function Taken<T>(n: nat, q: seq<T>, run: seq<Request<T>>): seq<T>
    decreases |run|
  {
    if |run| == 0 then []
    else (if run[0].re && |q| > 0 then [q[0]] else []) + Taken(n, NextQueue(n, q, run[0]), run[1..])
  }

  /** Data accepted: the writes that did not meet a full buffer. */
  function Accepted<T>(n: nat, q: seq<T>, run: seq<Request<T>>): seq<T>
    decreases |run|
  {
    if |run| == 0 then []
    else (if run[0].we && |q| < n then [run[0].datum] else []) + Accepted(n, NextQueue(n, q, run[0]), run[1..])
  }

  lemma QueueStep<T>(n: nat, q: seq<T>, i: Request<T>)
    ensures q + (if i.we && |q| < n then [i.datum] else []) == (if i.re && |q| > 0 then [q[0]] else []) + NextQueue(n, q, i)
  {
  }

  /** First in, first out, over any run: what was there and what was accepted is what was taken
      and what is left, in order. */
  lemma {:induction false} FirstInFirstOut<T>(n: nat, q: seq<T>, run: seq<Request<T>>)
    ensures q + Accepted(n, q, run) == Taken(n, q, run) + RunQueue(n, q, run)
    decreases |run|
  {
    if |run| > 0 {
      hide NextQueue;
      var i, next, rest := run[0], NextQueue(n, q, run[0]), run[1..];
      var out, acc := if i.re && |q| > 0 then [q[0]] else [], if i.we && |q| < n then [i.datum] else [];
      FirstInFirstOut(n, next, rest);
      QueueStep(n, q, i);
      Associates(q, acc, Accepted(n, next, rest));
      Associates(out, next, Accepted(n, next, rest));
      Associates(out, Taken(n, next, rest), RunQueue(n, next, rest));
    }
  }

  /** The occupancy never exceeds the capacity. */
  lemma {:induction false} StaysBounded<T>(n: nat, q: seq<T>, run: seq<Request<T>>)
    requires |q| <= n && n > 0
    ensures |RunQueue(n, q, run)| <= n
    decreases |run|
  {
    if |run| > 0 {
      StaysBounded(n, NextQueue(n, q, run[0]), run[1..]);
    }
  }
}
