/** System bus access: the bus engine with its registers, as a window on memory. */
module SystemBus {
  import opened Words
  import opened DebugMemory
  import opened ControlRegs

  // DMI addresses
  const SBCS: nat := 0x38
  const SBADDRESS0: nat := 0x39
  const SBDATA0: nat := 0x3c

  // ---- The engine and its registers ---------------------------------------------------------------

  datatype BusFsm = BusIdle | BusRead | BusWrite | WaitRead | WaitWrite

  /** `access` is the log of the access size; it is forced to the bus width every cycle. */
  datatype Sb = Sb(
    fsm: BusFsm, addr: Word, data: Word, autoinc: bool, readOnAddr: bool, readOnData: bool,
    busyError: bool, error: nat, access: nat)

  const SB_RESET := Sb(BusIdle, 0, 0, false, false, false, false, 0, 0)

  /** One cycle: an accepted DMI request, the grant and the response of the bus. */
  datatype SbIn = SbIn(op: Dmi, gnt: bool, rvalid: bool, rdata: Word)

  predicate Busy(s: Sb) { !s.fsm.BusIdle? }

  /** Requests to the window's registers that a running access refuses. */
  predicate Refused(s: Sb, op: Dmi) {
    match op
    case Nothing => false
    case Read(a) => a == SBDATA0 && (Busy(s) || s.busyError)
    case Write(a, _) => (a == SBCS && Busy(s)) || ((a == SBADDRESS0 || a == SBDATA0) && (Busy(s) || s.busyError))
  }

  predicate StartsRead(s: Sb, op: Dmi) {
    !Refused(s, op) && s.error == 0
    && ((op.Write? && op.addr == SBADDRESS0 && s.readOnAddr) || (op.Read? && op.addr == SBDATA0 && s.readOnData))
  }

  predicate StartsWrite(s: Sb, op: Dmi) {
    !Refused(s, op) && s.error == 0 && op.Write? && op.addr == SBDATA0
  }

  /** Bytes of an access. */
  function Step(access: nat): nat { Pow2(access) }

  function NextBusFsm(s: Sb, i: SbIn): BusFsm {
    if s.access > 3 && Busy(s) then BusIdle
    else match s.fsm
      case BusIdle => if StartsRead(s, i.op) then BusRead else if StartsWrite(s, i.op) then BusWrite else BusIdle
      case BusRead => if i.gnt then WaitRead else BusRead
      case BusWrite => if i.gnt then WaitWrite else BusWrite
      case WaitRead => if i.rvalid then BusIdle else WaitRead
      case WaitWrite => if i.rvalid then BusIdle else WaitWrite
  }

  predicate Completes(s: Sb, i: SbIn) {
    (s.fsm.WaitRead? || s.fsm.WaitWrite?) && i.rvalid
  }

  /** The bit of weight `weight`. */
  predicate Set(d: Word, weight: nat)
    requires weight > 0
  {
    d / weight % 2 == 1
  }

  function ErrorField(d: Word): nat { d / 0x1000 % 8 }

  /** The registers after the request of a cycle. */
  function Served(s: Sb, op: Dmi): Sb {
    if Refused(s, op) then s.(busyError := true)
    else match op
      case Write(a, d) =>
        if a == SBCS then
          s.(autoinc := Set(d, 0x1_0000), readOnAddr := Set(d, 0x10_0000), readOnData := Set(d, 0x8000),
             busyError := s.busyError && !Set(d, 0x40_0000), error := Cleared(s.error, ErrorField(d)))
        else if a == SBADDRESS0 then s.(addr := d)
        else if a == SBDATA0 then s.(data := d)
        else s
      case _ => s
  }

  function NextSb(s: Sb, i: SbIn): Sb {
    var r := Served(s, i.op);
    r.(fsm := NextBusFsm(s, i),
       addr := if Completes(s, i) && s.autoinc then Wrap(s.addr + Step(s.access)) else r.addr,
       data := if i.rvalid then i.rdata else r.data,
       error := if s.access > 3 && Busy(s) then 3 else r.error,
       access := 2)
  }

  /** What a DMI read of the data register returns. */
  function ReadData(s: Sb): Word {
    if Refused(s, Read(SBDATA0)) then 0 else s.data
  }

  /** The bus request of a cycle. */
  datatype BusRequest = NoRequest | BusRequest(addr: Word, we: bool, wdata: Word, be: seq<bool>)

  /** Byte enables: the aligned group of 2^access bytes around the byte address. */
  function ByteMask(access: nat, addr: Word): (be: seq<bool>)
    ensures |be| == 4
  {
    if access == 0 then [addr % 4 == 0, addr % 4 == 1, addr % 4 == 2, addr % 4 == 3]
    else if access == 1 then [addr % 4 < 2, addr % 4 < 2, addr % 4 >= 2, addr % 4 >= 2]
    else [access <= 3, access <= 3, access <= 3, access <= 3]
  }

  lemma MaskIsAlignedGroup(access: nat, addr: Word, lane: nat)
    requires access <= 2 && lane < 4
    ensures ByteMask(access, addr)[lane] <==> lane / Pow2(access) == addr % 4 / Pow2(access)
  {
    assert Pow2(0) == 1 && Pow2(1) == 2 && Pow2(2) == 4;
  }

  function RequestOf(s: Sb): BusRequest {
    if s.access > 3 || !(s.fsm.BusRead? || s.fsm.BusWrite?) then NoRequest
    else BusRequest(s.addr, s.fsm.BusWrite?, s.data, ByteMask(s.access, s.addr))
  }

  class Sba {
    var fsm: BusFsm
    var addr: Word
    var data: Word
    var autoinc: bool
    var readOnAddr: bool
    var readOnData: bool
    var busyError: bool
    var error: nat
    var access: nat

    function State(): Sb
      reads this
    {
      Sb(fsm, addr, data, autoinc, readOnAddr, readOnData, busyError, error, access)
    }

    constructor ()
      ensures State() == SB_RESET
    {
      fsm, addr, data, autoinc, readOnAddr, readOnData, busyError, error, access := BusIdle, 0, 0, false, false, false, false, 0, 0;
    }

    /** The register side of a cycle; reports the strobes to the engine. */
    method ServeRequest(op: Dmi) returns (addressWritten: bool, dataRead: bool, dataWritten: bool)
      modifies this`addr, this`data, this`autoinc, this`readOnAddr, this`readOnData, this`busyError, this`error
      ensures var s := old(State());
        && State() == Served(s, op)
        && ((addressWritten && s.readOnAddr) || (dataRead && s.readOnData) <==> StartsRead(s, op))
        && (dataWritten <==> StartsWrite(s, op)) && !(dataWritten && StartsRead(s, op))
    {
      hide Cleared, Set, ErrorField;
      addressWritten, dataRead, dataWritten := false, false, false;
      var blocked := fsm != BusIdle || busyError;
      match op {
        case Nothing =>
        case Read(a) =>
          if a == SBDATA0 {
            if blocked { busyError := true; } else { dataRead := error == 0; }
          }
        case Write(a, d) =>
          if a == SBCS {
            if fsm != BusIdle {
              busyError := true;
            } else {
              autoinc, readOnAddr, readOnData := Set(d, 0x1_0000), Set(d, 0x10_0000), Set(d, 0x8000);
              busyError, error := busyError && !Set(d, 0x40_0000), Cleared(error, ErrorField(d));
            }
          } else if a == SBADDRESS0 {
            if blocked { busyError := true; } else { addr, addressWritten := d, error == 0; }
          } else if a == SBDATA0 {
            if blocked { busyError := true; } else { data, dataWritten := d, error == 0; }
          }
      }
    }

    /** The engine moves; reports whether an access is completed. */
    method MoveEngine(ghost s: Sb, i: SbIn, startsRead: bool, startsWrite: bool) returns (completed: bool)
      requires fsm == s.fsm && access == s.access
      requires (startsRead <==> StartsRead(s, i.op)) && (startsWrite <==> StartsWrite(s, i.op)) && !(startsRead && startsWrite)
      modifies this`fsm
      ensures fsm == NextBusFsm(s, i) && completed == Completes(s, i)
    {
      hide StartsRead, StartsWrite;
      var aborts := access > 3 && fsm != BusIdle;
      completed := false;
      match fsm {
        case BusIdle => if startsRead { fsm := BusRead; } else if startsWrite { fsm := BusWrite; }
        case BusRead => if i.gnt { fsm := WaitRead; }
        case BusWrite => if i.gnt { fsm := WaitWrite; }
        case WaitRead => if i.rvalid { fsm, completed := BusIdle, true; }
        case WaitWrite => if i.rvalid { fsm, completed := BusIdle, true; }
      }
      if aborts { fsm := BusIdle; }
    }

    /** One rising clock edge: the registers serve the request, the engine moves, the response and
        the increment are taken over. */
    method Tick(i: SbIn)
      modifies this
      ensures State() == NextSb(old(State()), i)
    {
      hide Served, Step, StartsRead, StartsWrite, NextBusFsm, Completes;
      ghost var s := State();
      var wasAddr, wasInc, wasOnAddr, wasOnData := addr, autoinc, readOnAddr, readOnData;
      var aborts := access > 3 && fsm != BusIdle;
      var addressWritten, dataRead, dataWritten := ServeRequest(i.op);
      var completed := MoveEngine(s, i, (addressWritten && wasOnAddr) || (dataRead && wasOnData), dataWritten);
      if completed && wasInc { addr := Wrap(wasAddr + Step(access)); }
      if aborts { error := 3; }
      if i.rvalid { data := i.rdata; }
      access := 2;
    }
  }

  // ---- The request is stable --------------------------------------------------------------------------

  /** No DMI request changes anything about a pending bus request; it is only recorded. */
  lemma RequestStable(s: Sb, i: SbIn)
    requires s.access == 2 && (s.fsm.BusRead? || s.fsm.BusWrite?) && !i.gnt && !i.rvalid
    ensures RequestOf(NextSb(s, i)) == RequestOf(s) != NoRequest
    ensures NextSb(s, i) == s.(busyError := s.busyError || Refused(s, i.op))
  {
  }

  // ---- The window ----------------------------------------------------------------------------------------

  /** A word memory; absent words read zero. */
  type Memory = map<nat, Word>

  function Get(m: Memory, addr: Word): Word {
    if addr / 4 in m then m[addr / 4] else 0
  }

  function Put(m: Memory, addr: Word, w: Word): Memory {
    m[addr / 4 := w]
  }

  /** The engine with a bus slave that answers a granted access after any number of cycles. A write
      takes effect and a read is sampled when it is granted; `latched` is the answer to come. */
  datatype Bus = Bus(sb: Sb, mem: Memory, latched: Word)

  /** One cycle; the answer to a write carries any word. */
  datatype BusIn = BusIn(op: Dmi, gnt: bool, answers: bool, noise: Word)

  function SbInput(b: Bus, i: BusIn): SbIn {
    SbIn(i.op, i.gnt, i.answers && (b.sb.fsm.WaitRead? || b.sb.fsm.WaitWrite?), b.latched)
  }

  function NextBus(b: Bus, i: BusIn): Bus {
    var r := RequestOf(b.sb);
    var granted := r.BusRequest? && i.gnt;
    Bus(NextSb(b.sb, SbInput(b, i)),
        if granted && r.we then Put(b.mem, r.addr, Merge(Get(b.mem, r.addr), r.wdata, r.be)) else b.mem,
        if granted then (if r.we then i.noise else Get(b.mem, r.addr)) else b.latched)
  }

  /** What the debugger may rely on: an address cursor, the data register (unknown after a write,
      whose bus answer replaces it) and the memory. */
  datatype Window = Window(addr: Word, data: Known, mem: Memory)

  datatype Known = Unknown | Value(w: Word)

  function Advance(s: Sb, addr: Word): Word {
    if s.autoinc then Wrap(addr + 4) else addr
  }

  /** The effect of an accepted request, all at once. */
  function Access(s: Sb, w: Window, op: Dmi): Window {
    if Refused(s, op) then w
    else match op
      case Nothing => w
      case Read(a) =>
        if a == SBDATA0 && s.readOnData then Window(Advance(s, w.addr), Value(Get(w.mem, w.addr)), w.mem) else w
      case Write(a, d) =>
        if a == SBADDRESS0 then
          if s.readOnAddr then Window(Advance(s, d), Value(Get(w.mem, d)), w.mem) else w.(addr := d)
        else if a == SBDATA0 then Window(Advance(s, w.addr), Unknown, Put(w.mem, w.addr, d))
        else w
  }

  predicate KnownIs(k: Known, w: Word) {
    k.Value? ==> k.w == w
  }

  /** The engine is somewhere in the access that the window has already made. */
  predicate Refines(b: Bus, w: Window) {
    var s := b.sb;
    && s.error == 0 && (Busy(s) ==> s.access == 2)
    && match s.fsm
       case BusIdle => s.addr == w.addr && KnownIs(w.data, s.data) && b.mem == w.mem
       case BusRead => w.addr == Advance(s, s.addr) && KnownIs(w.data, Get(b.mem, s.addr)) && b.mem == w.mem
       case WaitRead => w.addr == Advance(s, s.addr) && KnownIs(w.data, b.latched) && b.mem == w.mem
       case BusWrite => w.addr == Advance(s, s.addr) && w.data.Unknown? && w.mem == Put(b.mem, s.addr, s.data)
       case WaitWrite => w.addr == Advance(s, s.addr) && w.data.Unknown? && w.mem == b.mem
  }

  lemma MergeAll(old_: Word, new_: Word)
    ensures Merge(old_, new_, [true, true, true, true]) == new_
  {
    PackOfLanes(new_);
    hide Lane, Pack;
  }

  lemma ClearedZero(ones: nat)
    ensures Cleared(0, ones) == 0
  {
  }

  lemma WordStep()
    ensures Step(2) == 4
  {
    assert Pow2(1) == 2 && Pow2(2) == 4;
  }

  lemma IdleRefines(b: Bus, w: Window, i: BusIn)
    requires Refines(b, w) && b.sb.fsm.BusIdle?
    ensures Refines(NextBus(b, i), Access(b.sb, w, i.op))
  {
    hide Merge, Get, Put, Cleared, Step, ByteMask, Wrap;
    if i.op.Write? { ClearedZero(i.op.data / 0x1000 % 8); }
  }

  lemma RequestRefines(b: Bus, w: Window, i: BusIn)
    requires Refines(b, w) && (b.sb.fsm.BusRead? || b.sb.fsm.BusWrite?)
    ensures Refines(NextBus(b, i), Access(b.sb, w, i.op))
  {
    hide Merge, Get, Put, Cleared, Step, Wrap;
    MergeAll(Get(b.mem, b.sb.addr), b.sb.data);
  }

  lemma AnswerRefines(b: Bus, w: Window, i: BusIn)
    requires Refines(b, w) && (b.sb.fsm.WaitRead? || b.sb.fsm.WaitWrite?)
    ensures Refines(NextBus(b, i), Access(b.sb, w, i.op))
  {
    hide Merge, Get, Put, Cleared, Step, Wrap;
    WordStep();
  }

  /** Every cycle of the engine is a step of the window, whatever the grant and answer delays and
      whatever is requested meanwhile; a read of the data register returns the window's data. */
  lemma BusRefinesWindow(b: Bus, w: Window, i: BusIn)
    requires Refines(b, w)
    ensures Refines(NextBus(b, i), Access(b.sb, w, i.op))
    ensures !Refused(b.sb, Read(SBDATA0)) ==> KnownIs(w.data, ReadData(b.sb))
  {
    if b.sb.fsm.BusIdle? { IdleRefines(b, w, i); }
    else if b.sb.fsm.BusRead? || b.sb.fsm.BusWrite? { RequestRefines(b, w, i); }
    else { AnswerRefines(b, w, i); }
  }

  // ---- Streams ----------------------------------------------------------------------------------------------

  function RunBus(b: Bus, run: seq<BusIn>): Bus
    decreases |run|
  {
    if |run| == 0 then b else RunBus(NextBus(b, run[0]), run[1..])
  }

  function RunWindow(b: Bus, w: Window, run: seq<BusIn>): Window
    decreases |run|
  {
    if |run| == 0 then w else RunWindow(NextBus(b, run[0]), Access(b.sb, w, run[0].op), run[1..])
  }

  lemma {:induction false} RunsRefine(b: Bus, w: Window, run: seq<BusIn>)
    requires Refines(b, w)
    ensures Refines(RunBus(b, run), RunWindow(b, w, run))
    decreases |run|
  {
    if |run| > 0 {
      BusRefinesWindow(b, w, run[0]);
      RunsRefine(NextBus(b, run[0]), Access(b.sb, w, run[0].op), run[1..]);
    }
  }

  /** A run that only reads the data register (or does nothing, or is refused), with all three
      automatic functions on. */
  predicate Reading(b: Bus, run: seq<BusIn>)
    decreases |run|
  {
    b.sb.autoinc && b.sb.readOnData
    && (|run| > 0 ==> (run[0].op == Nothing || run[0].op == Read(SBDATA0)) && Reading(NextBus(b, run[0]), run[1..]))
  }

  /** The words that accepted reads return. */
  function WordsRead(b: Bus, run: seq<BusIn>): seq<Word>
    decreases |run|
  {
    if |run| == 0 then []
    else (if run[0].op == Read(SBDATA0) && !Refused(b.sb, run[0].op) then [ReadData(b.sb)] else [])
         + WordsRead(NextBus(b, run[0]), run[1..])
  }

  /** Address `n` words on. */
  function Nth(addr: Word, n: nat): Word {
    Wrap(addr + 4 * n)
  }

  lemma NthStart(addr: Word)
    ensures Nth(addr, 0) == addr
  {
  }

  lemma NthStep(addr: Word, n: nat)
    ensures Nth(Wrap(addr + 4), n) == Nth(addr, n + 1)
  {
    WrapAdds(addr + 4, 4 * n);
  }

  /** Addresses may be cut to their width at any moment. */
  lemma WrapAdds(a: nat, b: nat)
    ensures Wrap(Wrap(a) + b) == Wrap(a + b)
  {
    var m := 0x1_0000_0000;
    assert a == a / m * m + Wrap(a) && Wrap(a) + b == (Wrap(a) + b) / m * m + Wrap(Wrap(a) + b);
    assert a + b == (a / m + (Wrap(a) + b) / m) * m + Wrap(Wrap(a) + b);
  }

  /** The i-th accepted read of a stream returns word i from the window on: from the data register
      that holds word 0, the words follow each other in memory. */
  lemma {:induction false} ReadStream(b: Bus, base: Word, mem: Memory, run: seq<BusIn>)
    requires Refines(b, Window(Wrap(base + 4), Value(Get(mem, base)), mem)) && Reading(b, run)
    ensures forall n :: 0 <= n < |WordsRead(b, run)| ==> WordsRead(b, run)[n] == Get(mem, Nth(base, n))
    decreases |run|
  {
    if |run| > 0 {
      var w, next := Window(Wrap(base + 4), Value(Get(mem, base)), mem), NextBus(b, run[0]);
      var served := run[0].op == Read(SBDATA0) && !Refused(b.sb, run[0].op);
      BusRefinesWindow(b, w, run[0]);
      hide Get, NextBus, Refines, ReadData, Nth;
      if served {
        ReadStream(next, Wrap(base + 4), mem, run[1..]);
        StreamShifts(mem, base, ReadData(b.sb), WordsRead(next, run[1..]));
      } else {
        ReadStream(next, base, mem, run[1..]);
      }
    }
  }

  lemma StreamShifts(mem: Memory, base: Word, first: Word, rest: seq<Word>)
    requires first == Get(mem, base) && forall n :: 0 <= n < |rest| ==> rest[n] == Get(mem, Nth(Wrap(base + 4), n))
    ensures forall n :: 0 <= n < |rest| + 1 ==> ([first] + rest)[n] == Get(mem, Nth(base, n))
  {
    hide Get, Nth;
    NthStart(base);
    forall n | 0 < n < |rest| + 1 ensures ([first] + rest)[n] == Get(mem, Nth(base, n)) { NthStep(base, n - 1); }
  }

  /** Setting the address starts the stream. */
  lemma StreamStarts(b: Bus, w: Window, i: BusIn, base: Word)
    requires Refines(b, w) && b.sb.autoinc && b.sb.readOnAddr && i.op == Write(SBADDRESS0, base) && !Refused(b.sb, i.op)
    ensures Refines(NextBus(b, i), Window(Wrap(base + 4), Value(Get(w.mem, base)), w.mem))
  {
    BusRefinesWindow(b, w, i);
  }

  /** A run that only writes the data register, with the increment on. */
  predicate Writing(b: Bus, run: seq<BusIn>)
    decreases |run|
  {
    b.sb.autoinc && (|run| > 0 ==> (run[0].op == Nothing || (run[0].op.Write? && run[0].op.addr == SBDATA0))
                                   && Writing(NextBus(b, run[0]), run[1..]))
  }

  function WordsWritten(b: Bus, run: seq<BusIn>): seq<Word>
    decreases |run|
  {
    if |run| == 0 then []
    else (if run[0].op.Write? && !Refused(b.sb, run[0].op) then [run[0].op.data] else []) + WordsWritten(NextBus(b, run[0]), run[1..])
  }

  /** Words stored one after the other from an address on. */
  function Stored(mem: Memory, addr: Word, ws: seq<Word>): Memory
    decreases |ws|
  {
    if |ws| == 0 then mem else Stored(Put(mem, addr, ws[0]), Wrap(addr + 4), ws[1..])
  }

  /** The i-th accepted write of a stream lands at word i from the cursor on; once the engine is
      idle the memory holds exactly that. */
  lemma {:induction false} WriteStream(b: Bus, w: Window, run: seq<BusIn>)
    requires Refines(b, w) && Writing(b, run)
    ensures RunWindow(b, w, run).mem == Stored(w.mem, w.addr, WordsWritten(b, run))
    ensures !Busy(RunBus(b, run).sb) ==> RunBus(b, run).mem == Stored(w.mem, w.addr, WordsWritten(b, run))
    decreases |run|
  {
    if |run| > 0 {
      var next, w', ws := NextBus(b, run[0]), Access(b.sb, w, run[0].op), WordsWritten(NextBus(b, run[0]), run[1..]);
      BusRefinesWindow(b, w, run[0]);
      hide Put, NextBus, Refines;
      WriteStream(next, w', run[1..]);
      if run[0].op.Write? && !Refused(b.sb, run[0].op) {
        assert WordsWritten(b, run)[1..] == ws;
      } else {
        assert WordsWritten(b, run) == ws;
      }
    }
  }

  // ---- What the debugger's words mean --------------------------------------------------------------------------

  lemma Powers()
    ensures Pow2(12) == 0x1000 && Pow2(13) == 0x2000 && Pow2(14) == 0x4000 && Pow2(15) == 0x8000 && Pow2(16) == 0x1_0000
    ensures Pow2(20) == 0x10_0000 && Pow2(22) == 0x40_0000
  {
    assert Pow2(4) == 16 && Pow2(8) == 0x100;
    assert Pow2(18) == 0x4_0000;
  }

  lemma ControlBits(d: Word)
    ensures Set(d, 0x8000) == BitAt(d, 15) && Set(d, 0x1_0000) == BitAt(d, 16) && Set(d, 0x10_0000) == BitAt(d, 20)
    ensures Set(d, 0x40_0000) == BitAt(d, 22)
  {
    hide BitAt, Pow2;
    Powers();
    BitByDivision(d, 15);
    BitByDivision(d, 16);
    BitByDivision(d, 20);
    BitByDivision(d, 22);
  }

  lemma LowThree(q: nat)
    ensures q % 8 % 2 == q % 2 && q % 8 / 2 % 2 == q / 2 % 2 && q % 8 / 4 % 2 == q / 4 % 2
  {
    EightParts(q / 8, q % 8);
  }

  lemma EightParts(h: nat, r: nat)
    requires r < 8
    ensures var q := h * 8 + r; q % 2 == r % 2 && q / 2 % 2 == r / 2 % 2 && q / 4 % 2 == r / 4 % 2
  {
    SplitAt(h * 2 + r / 4, r % 4, 4);
    SplitAt(h, r / 4, 2);
    SplitAt(h * 4 + r / 2, r % 2, 2);
    SplitAt(h * 2 + r / 4, r / 2 % 2, 2);
  }

  lemma AboveTwelve(d: nat)
    ensures d / 0x2000 == d / 0x1000 / 2 && d / 0x4000 == d / 0x1000 / 4
  {
  }

  lemma ErrorBitsOf(d: Word, k: nat)
    requires k < 3
    ensures BitAt(ErrorField(d), k) == BitAt(d, 12 + k)
  {
    hide BitAt, Pow2;
    Powers();
    BitByDivision(d, 12 + k);
    ThreeBits(ErrorField(d));
    LowThree(d / 0x1000);
    AboveTwelve(d);
  }

  lemma ClearedBit(x: nat, ones: nat, k: nat)
    requires x < 8 && ones < 8 && k < 3
    ensures BitAt(Cleared(x, ones), k) <==> BitAt(x, k) && !BitAt(ones, k)
  {
    hide BitAt, Cleared;
    ClearedBits(x, ones);
    ThreeBits(x);
    ThreeBits(ones);
    ThreeBits(Cleared(x, ones));
  }

  /** A write of the control register at 0x38 while the engine is idle: bit 16 turns the increment on,
      bits 20 and 15 the reads on address and data; a one in bit 22 clears the busy error, and ones
      in bits 14 to 12 clear those bits of the error. Address and engine stay as they are. */
  lemma ControlWritten(s: Sb, i: SbIn, d: Word)
    requires s.fsm.BusIdle? && s.error < 8 && i.op == Write(0x38, d)
    ensures var n := NextSb(s, i);
      && (n.autoinc <==> BitAt(d, 16)) && (n.readOnAddr <==> BitAt(d, 20)) && (n.readOnData <==> BitAt(d, 15))
      && (n.busyError <==> s.busyError && !BitAt(d, 22))
      && (forall k :: 0 <= k < 3 ==> (BitAt(n.error, k) <==> BitAt(s.error, k) && !BitAt(d, 12 + k)))
      && n.error < 8 && n.addr == s.addr && n.fsm.BusIdle?
  {
    hide Set, ErrorField, BitAt, Cleared;
    ControlBits(d);
    FieldIsSmall(d);
    ClearedIsSmall(s.error, ErrorField(d));
    forall k | 0 <= k < 3 ensures BitAt(NextSb(s, i).error, k) <==> BitAt(s.error, k) && !BitAt(d, 12 + k) {
      ErrorBitsOf(d, k);
      ClearedBit(s.error, ErrorField(d), k);
    }
  }

  lemma FieldIsSmall(d: Word)
    ensures ErrorField(d) < 8
  {
  }

  lemma ClearedIsSmall(x: nat, ones: nat)
    ensures Cleared(x, ones) < 8
  {
  }

  lemma NoBitsNoError(x: nat)
    requires x < 8 && forall k :: 0 <= k < 3 ==> !BitAt(x, k)
    ensures x == 0
  {
    assert !BitAt(x, 0) && !BitAt(x, 1) && !BitAt(x, 2);
    ThreeBits(x);
    hide BitAt;
  }

  /** While an access is under way, and while the busy error is up, requests to the address at 0x39
      and the data at 0x3c are refused, writes of the control register only in the first case; a
      refused request changes nothing but the busy error. */
  lemma RefusedExactly(s: Sb, i: SbIn)
    requires s.access == 2 && !i.gnt && !i.rvalid
    ensures var refused := (!s.fsm.BusIdle? && i.op.Write? && i.op.addr == 0x38)
      || ((!s.fsm.BusIdle? || s.busyError) && ((i.op.Write? && (i.op.addr == 0x39 || i.op.addr == 0x3c)) || i.op == Read(0x3c)));
      && (refused ==> NextSb(s, i) == s.(busyError := true))
      && (!refused && !s.busyError ==> !NextSb(s, i).busyError)
  {
    hide Set, ErrorField, Cleared;
  }

  /** The idle engine starts a read for an address write or a data read, where the control register
      asks for it, and a write for every data write, unless an error is up. */
  lemma StartsExactly(s: Sb, i: SbIn)
    requires s.fsm.BusIdle?
    ensures var clean := !s.busyError && s.error == 0;
      && (NextSb(s, i).fsm.BusRead? <==>
            clean && ((i.op.Write? && i.op.addr == 0x39 && s.readOnAddr) || (i.op == Read(0x3c) && s.readOnData)))
      && (NextSb(s, i).fsm.BusWrite? <==> clean && i.op.Write? && i.op.addr == 0x3c)
  {
    hide Set, ErrorField, Cleared;
  }

  /** The control word leaves no error behind. */
  predicate ClearsErrors(s: Sb, d: Word) {
    s.error < 8 && (s.busyError ==> BitAt(d, 22)) && forall k :: 0 <= k < 3 ==> (BitAt(s.error, k) ==> BitAt(d, 12 + k))
  }

  lemma SetUp(b: Bus, i: BusIn, d: Word)
    requires b.sb.fsm.BusIdle? && ClearsErrors(b.sb, d) && i.op == Write(0x38, d)
    ensures var n := NextBus(b, i);
      && Refines(n, Window(n.sb.addr, Unknown, b.mem)) && n.sb.fsm.BusIdle? && !n.sb.busyError && n.sb.access == 2
      && (n.sb.autoinc <==> BitAt(d, 16)) && (n.sb.readOnAddr <==> BitAt(d, 20)) && (n.sb.readOnData <==> BitAt(d, 15))
  {
    hide NextSb, BitAt, Merge;
    ControlWritten(b.sb, SbInput(b, i), d);
    NoBitsNoError(NextSb(b.sb, SbInput(b, i)).error);
    AccessIsWord(b.sb, SbInput(b, i));
  }

  lemma AccessIsWord(s: Sb, i: SbIn)
    ensures NextSb(s, i).access == 2
  {
  }

  /** Without a write of the control register its settings stay. */
  lemma SettingsStay(b: Bus, i: BusIn)
    requires !(i.op.Write? && i.op.addr == 0x38)
    ensures var n := NextBus(b, i).sb;
      n.autoinc == b.sb.autoinc && n.readOnAddr == b.sb.readOnAddr && n.readOnData == b.sb.readOnData
  {
    hide Merge, Get, Put, NextBusFsm;
  }

  lemma {:induction false} OnlyReads(b: Bus, run: seq<BusIn>)
    requires b.sb.autoinc && b.sb.readOnData && forall n :: 0 <= n < |run| ==> run[n].op == Nothing || run[n].op == Read(0x3c)
    ensures Reading(b, run)
    decreases |run|
  {
    hide NextBus;
    if |run| > 0 {
      SettingsStay(b, run[0]);
      OnlyReads(NextBus(b, run[0]), run[1..]);
    }
  }

  lemma {:induction false} OnlyWrites(b: Bus, run: seq<BusIn>)
    requires b.sb.autoinc && forall n :: 0 <= n < |run| ==> run[n].op == Nothing || (run[n].op.Write? && run[n].op.addr == 0x3c)
    ensures Writing(b, run)
    decreases |run|
  {
    hide NextBus;
    if |run| > 0 {
      SettingsStay(b, run[0]);
      OnlyWrites(NextBus(b, run[0]), run[1..]);
    }
  }

  /** A block read from the idle engine on: the control word turns reads on address, reads on data and
      the increment on, the address is written, and then the i-th accepted read of 0x3c returns the
      i-th word of memory from that address on, whatever the grant and answer delays. */
  lemma BlockRead(b: Bus, i1: BusIn, i2: BusIn, run: seq<BusIn>, d: Word, base: Word)
    requires b.sb.fsm.BusIdle? && ClearsErrors(b.sb, d) && i1.op == Write(0x38, d)
    requires BitAt(d, 20) && BitAt(d, 16) && BitAt(d, 15)
    requires i2.op == Write(0x39, base)
    requires forall n :: 0 <= n < |run| ==> run[n].op == Nothing || run[n].op == Read(0x3c)
    ensures var words := WordsRead(NextBus(NextBus(b, i1), i2), run);
      forall n :: 0 <= n < |words| ==> words[n] == Get(b.mem, (base + 4 * n) % 0x1_0000_0000)
  {
    hide NextBus, BitAt, ClearsErrors, Refines, Get, WordsRead, Nth;
    var b1 := NextBus(b, i1);
    SetUp(b, i1, d);
    StreamStarts(b1, Window(b1.sb.addr, Unknown, b.mem), i2, base);
    SettingsStay(b1, i2);
    OnlyReads(NextBus(b1, i2), run);
    ReadStream(NextBus(b1, i2), base, b.mem, run);
    forall n: nat | n < |WordsRead(NextBus(b1, i2), run)|
      ensures WordsRead(NextBus(b1, i2), run)[n] == Get(b.mem, (base + 4 * n) % 0x1_0000_0000)
    {
      NthIs(base, n);
    }
  }

  lemma NthIs(base: Word, n: nat)
    ensures Nth(base, n) == (base + 4 * n) % 0x1_0000_0000
  {
  }

  /** A block write from the idle engine on: with the increment on and no read on address, the accepted
      writes of 0x3c land one after the other from the address on, and once the engine is idle
      nothing else of the memory has changed. */
  lemma BlockWrite(b: Bus, i1: BusIn, i2: BusIn, run: seq<BusIn>, d: Word, base: Word)
    requires b.sb.fsm.BusIdle? && ClearsErrors(b.sb, d) && i1.op == Write(0x38, d) && BitAt(d, 16) && !BitAt(d, 20)
    requires i2.op == Write(0x39, base)
    requires forall n :: 0 <= n < |run| ==> run[n].op == Nothing || (run[n].op.Write? && run[n].op.addr == 0x3c)
    ensures var b2 := NextBus(NextBus(b, i1), i2);
      !Busy(RunBus(b2, run).sb) ==> RunBus(b2, run).mem == Stored(b.mem, base, WordsWritten(b2, run))
  {
    hide NextBus, BitAt, ClearsErrors, Refines, WordsWritten, RunBus, RunWindow, Stored;
    var b1 := NextBus(b, i1);
    SetUp(b, i1, d);
    AddressSet(b1, Window(b1.sb.addr, Unknown, b.mem), i2, base);
    SettingsStay(b1, i2);
    OnlyWrites(NextBus(b1, i2), run);
    WriteStream(NextBus(b1, i2), Window(base, Unknown, b.mem), run);
  }

  lemma AddressSet(b: Bus, w: Window, i: BusIn, base: Word)
    requires Refines(b, w) && b.sb.fsm.BusIdle? && !b.sb.busyError && !b.sb.readOnAddr && i.op == Write(0x39, base)
    ensures Refines(NextBus(b, i), w.(addr := base))
  {
    hide NextBus, Refines;
    BusRefinesWindow(b, w, i);
  }
}
