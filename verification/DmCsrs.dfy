/** The command side of the debug module's registers as the debugger sees them over DMI. The
    system bus registers of the same block are modelled with the bus access engine. */
module ControlRegs {
  import opened Words
  import opened DebugMemory

  // DMI addresses
  const DATA0: nat := 0x04
  const DMCONTROL: nat := 0x10
  const ABSTRACTCS: nat := 0x16
  const COMMAND: nat := 0x17
  const ABSTRACTAUTO: nat := 0x18
  const PROGBUF0: nat := 0x20

  /** A DMI request accepted in a cycle. */
  datatype Dmi = Nothing | Read(addr: nat) | Write(addr: nat, data: Word)

  predicate IsData(addr: nat) { DATA0 <= addr < DATA0 + 2 }
  predicate IsProgbuf(addr: nat) { PROGBUF0 <= addr < PROGBUF0 + 8 }

  /** The writable fields of dmcontrol. */
  datatype Control = Control(haltreq: bool, resumereq: bool, hartsel: nat, ndmreset: bool, dmactive: bool)

  /** Bit `k` of a word, from the lowest. */
  predicate BitAt(w: nat, k: nat) {
    if k == 0 then w % 2 == 1 else BitAt(w / 2, k - 1)
  }

  /** hartsel is {hartselhi (bits 15 to 6), hartsello (bits 25 to 16)}. */
  function ControlOf(w: Word): (c: Control)
    ensures c.hartsel < 0x10_0000
  {
    Control(w / 0x8000_0000 == 1, w / 0x4000_0000 % 2 == 1, w / 64 % 0x400 * 0x400 + w / 0x1_0000 % 0x400,
            w / 2 % 2 == 1, w % 2 == 1)
  }

  function ControlWord(c: Control): Word
    requires c.hartsel < 0x10_0000
  {
    (if c.haltreq then 0x8000_0000 else 0) + (if c.resumereq then 0x4000_0000 else 0)
    + c.hartsel % 0x400 * 0x1_0000 + c.hartsel / 0x400 * 64
    + (if c.ndmreset then 2 else 0) + (if c.dmactive then 1 else 0)
  }

  /** The cmderr field is kept as a number: clearing single bits can yield any code. */
  function Code(e: CmdErr): nat {
    match e
    case ErrNone => 0 case ErrBusy => 1 case ErrNotSupported => 2 case ErrException => 3
    case ErrHaltResume => 4 case ErrBus => 5 case ErrOther => 7
  }

  datatype Csrs = Csrs(
    control: Control, cmderr: nat, command: Word, cmdValid: bool,
    autoData: seq<bool>, autoProgbuf: seq<bool>, progbuf: seq<Word>, data: seq<Word>)

  predicate ValidCsrs(c: Csrs) {
    && c.control.hartsel < 0x10_0000 && c.cmderr < 8 && |c.autoData| == 2 && |c.autoProgbuf| == 8
    && |c.progbuf| == 8 && |c.data| == 2
  }

  datatype CsrIn = CsrIn(op: Dmi, busy: bool, error: CmdErr, dataValid: bool, data: seq<Word>, acks: seq<bool>)

  predicate ValidCsrIn(i: CsrIn) {
    |i.data| == 2
  }

  function Disarmed(n: nat): seq<bool> {
    seq(n, _ => false)
  }

  const RESET_CSRS := Csrs(Control(false, false, 0, false, false), 0, 0, false, Disarmed(2), Disarmed(8),
                           [0, 0, 0, 0, 0, 0, 0, 0], [0, 0])

  // ---- One cycle ---------------------------------------------------------------------------

  /** Requests that are refused, and reported, while a command runs. */
  predicate Guarded(op: Dmi) {
    match op
    case Nothing => false
    case Read(a) => IsData(a) || IsProgbuf(a)
    case Write(a, _) => IsData(a) || IsProgbuf(a) || a == ABSTRACTCS || a == COMMAND || a == ABSTRACTAUTO
  }

  /** Bitwise conjunction with a complement, for three-bit fields. */
  function Cleared(old_: nat, ones: nat): nat {
    (if old_ / 4 % 2 == 1 && ones / 4 % 2 == 0 then 4 else 0)
    + (if old_ / 2 % 2 == 1 && ones / 2 % 2 == 0 then 2 else 0)
    + (if old_ % 2 == 1 && ones % 2 == 0 then 1 else 0)
  }

  /** An access that re-executes the last command. */
  predicate AutoExecutes(c: Csrs, addr: nat)
    requires ValidCsrs(c)
  {
    (IsData(addr) && c.autoData[addr - DATA0]) || (IsProgbuf(addr) && c.autoProgbuf[addr - PROGBUF0])
  }

  predicate StartsCommand(c: Csrs, op: Dmi, busy: bool)
    requires ValidCsrs(c)
  {
    !busy && match op
      case Nothing => false
      case Read(a) => AutoExecutes(c, a)
      case Write(a, _) => a == COMMAND || AutoExecutes(c, a)
  }

  function NextCmdErr(c: Csrs, i: CsrIn): nat {
    if i.error != ErrNone then Code(i.error)
    else if i.busy && Guarded(i.op) then (if c.cmderr == 0 then Code(ErrBusy) else c.cmderr)
    else match i.op
      case Write(a, d) => if a == ABSTRACTCS then Cleared(c.cmderr, d / 0x100 % 8) else c.cmderr
      case _ => c.cmderr
  }

  /** The control register asked for this cycle, before the resume acknowledgement is looked at. */
  function RequestedControl(c: Csrs, op: Dmi): Control {
    match op
    case Write(a, d) => if a == DMCONTROL then ControlOf(d) else c.control
    case _ => c.control
  }

  /** A new resume request clears the acknowledgement of the hart that is selected so far. */
  predicate ClearsResumeAck(c: Csrs, op: Dmi) {
    !c.control.resumereq && RequestedControl(c, op).resumereq
  }

  /** A pending request is dropped as soon as any hart shows an acknowledgement. */
  function NextControl(c: Csrs, i: CsrIn): Control {
    var d := RequestedControl(c, i.op);
    if c.control.resumereq && AnyAck(i.acks) then d.(resumereq := false) else d
  }

  predicate AnyAck(acks: seq<bool>) {
    exists k :: 0 <= k < |acks| && acks[k]
  }

  function NextData(c: Csrs, i: CsrIn): seq<Word>
    requires ValidCsrs(c) && ValidCsrIn(i)
  {
    if i.dataValid then i.data
    else match i.op
      case Write(a, d) => if IsData(a) && !i.busy then c.data[a - DATA0 := d] else c.data
      case _ => c.data
  }

  function NextProgbuf(c: Csrs, op: Dmi, busy: bool): seq<Word>
    requires ValidCsrs(c)
  {
    match op
    case Write(a, d) => if IsProgbuf(a) && !busy then c.progbuf[a - PROGBUF0 := d] else c.progbuf
    case _ => c.progbuf
  }

  /** `n` bits of a word from bit `first` on. */
  function BitsFrom(w: Word, first: nat, n: nat): (bits: seq<bool>)
    ensures |bits| == n && forall k :: 0 <= k < n ==> (bits[k] <==> BitAt(w, first + k))
  {
    seq(n, k requires 0 <= k < n => BitAt(w, first + k))
  }

  /** The arming bits: 1 and 0 for the data registers, 23 to 16 for the program buffer. */
  function NextAuto(c: Csrs, op: Dmi, busy: bool): (seq<bool>, seq<bool>) {
    match op
    case Write(a, d) =>
      if a == ABSTRACTAUTO && !busy then (BitsFrom(d, 0, 2), BitsFrom(d, 16, 8)) else (c.autoData, c.autoProgbuf)
    case _ => (c.autoData, c.autoProgbuf)
  }

  function NextCommand(c: Csrs, op: Dmi, busy: bool): Word {
    match op
    case Write(a, d) => if a == COMMAND && !busy then d else c.command
    case _ => c.command
  }

  function NextCsrs(c: Csrs, i: CsrIn): Csrs
    requires ValidCsrs(c) && ValidCsrIn(i)
  {
    if !c.control.dmactive then
      RESET_CSRS.(control := RESET_CSRS.control.(dmactive := RequestedControl(c, i.op).dmactive))
    else
      Csrs(NextControl(c, i), NextCmdErr(c, i), NextCommand(c, i.op, i.busy), StartsCommand(c, i.op, i.busy),
           NextAuto(c, i.op, i.busy).0, NextAuto(c, i.op, i.busy).1, NextProgbuf(c, i.op, i.busy), NextData(c, i))
  }

  /** The registers whose read value the model covers. */
  predicate Readable(addr: nat) {
    IsData(addr) || IsProgbuf(addr) || addr == DMCONTROL || addr == ABSTRACTCS || addr == COMMAND
  }

  function ReadValue(c: Csrs, busy: bool, addr: nat): Word
    requires ValidCsrs(c) && Readable(addr)
  {
    if IsData(addr) then c.data[addr - DATA0]
    else if IsProgbuf(addr) then c.progbuf[addr - PROGBUF0]
    else if addr == DMCONTROL then ControlWord(c.control)
    else if addr == ABSTRACTCS then 0x0800_0002 + (if busy then 0x1000 else 0) + c.cmderr * 0x100
    else 0
  }

  // ---- What holds of a cycle ---------------------------------------------------------------

  lemma StaysValid(c: Csrs, i: CsrIn)
    requires ValidCsrs(c) && ValidCsrIn(i)
    ensures ValidCsrs(NextCsrs(c, i))
  {
  }

  /** While a command runs no debugger request changes what the command depends on; the data
      registers change only through the hart. */
  lemma BusyProtects(c: Csrs, i: CsrIn)
    requires ValidCsrs(c) && ValidCsrIn(i) && i.busy && c.control.dmactive
    ensures var c' := NextCsrs(c, i);
      && c'.command == c.command && c'.progbuf == c.progbuf && !c'.cmdValid
      && c'.autoData == c.autoData && c'.autoProgbuf == c.autoProgbuf
      && c'.data == if i.dataValid then i.data else c.data
  {
  }

  /** The busy error appears in a clean cmderr exactly for a refused request, unless a hart
      reports an error in the same cycle. */
  lemma BusyErrorExactly(c: Csrs, i: CsrIn)
    requires ValidCsrs(c) && ValidCsrIn(i) && c.control.dmactive && c.cmderr == 0 && i.error != ErrBusy
    ensures NextCsrs(c, i).cmderr == Code(ErrBusy) <==> i.busy && Guarded(i.op) && i.error == ErrNone
  {
  }

  /** A recorded error outlives everything but a hart error and an explicit write of ones:
      in particular a refused request does not overwrite it. */
  lemma ErrorIsSticky(c: Csrs, i: CsrIn)
    requires ValidCsrs(c) && ValidCsrIn(i) && c.control.dmactive && c.cmderr != 0 && i.error == ErrNone
    ensures NextCsrs(c, i).cmderr == c.cmderr
      || (!i.busy && i.op.Write? && i.op.addr == ABSTRACTCS && NextCsrs(c, i).cmderr < c.cmderr)
  {
  }

  /** The error does not stop the next command, in spite of what the comment beside it says. */
  lemma ErrorDoesNotBlock(c: Csrs, i: CsrIn, w: Word)
    requires ValidCsrs(c) && ValidCsrIn(i) && c.control.dmactive && !i.busy && i.op == Write(COMMAND, w)
    ensures NextCsrs(c, i).cmdValid && NextCsrs(c, i).command == w
  {
  }

  /** What is written to a register that holds all of its bits is read back, busy or not,
      until the next accepted request. */
  lemma WriteReadsBack(c: Csrs, i: CsrIn, busy: bool)
    requires ValidCsrs(c) && ValidCsrIn(i) && c.control.dmactive && i.op.Write? && !i.busy && !i.dataValid
    requires IsData(i.op.addr) || IsProgbuf(i.op.addr)
    ensures ValidCsrs(NextCsrs(c, i)) && ReadValue(NextCsrs(c, i), busy, i.op.addr) == i.op.data
  {
    StaysValid(c, i);
  }

  /** abstractcs shows the running command and the recorded error in their fields. */
  lemma StatusShows(c: Csrs, busy: bool)
    requires ValidCsrs(c)
    ensures var w := ReadValue(c, busy, ABSTRACTCS);
      (w / 0x1000 % 2 == 1 <==> busy) && w / 0x100 % 8 == c.cmderr && w / 0x100_0000 == 8 && w % 16 == 2
  {
    var low := (if busy then 0x1000 else 0) + c.cmderr * 0x100 + 2;
    Split(8, low, 0x100_0000);
    Split(0x8000 + (if busy then 1 else 0), c.cmderr * 0x100 + 2, 0x1000);
    Split(0x8_0000 + (if busy then 16 else 0) + c.cmderr, 2, 0x100);
  }

  /** Writing cmderr clears exactly the bits that are written as ones. */
  lemma WriteOneClears(c: Csrs, i: CsrIn, k: nat)
    requires ValidCsrs(c) && ValidCsrIn(i) && c.control.dmactive && !i.busy && i.error == ErrNone && k < 3
    requires i.op.Write? && i.op.addr == ABSTRACTCS
    ensures BitAt(NextCsrs(c, i).cmderr, k) <==> BitAt(c.cmderr, k) && !BitAt(i.op.data / 0x100 % 8, k)
  {
    var x, d := c.cmderr, i.op.data / 0x100 % 8;
    ThreeBits(x);
    ThreeBits(d);
    ThreeBits(Cleared(x, d));
    ClearedBits(x, d);
    hide BitAt, Cleared;
  }

  lemma ThreeBits(x: nat)
    ensures BitAt(x, 0) == (x % 2 == 1) && BitAt(x, 1) == (x / 2 % 2 == 1) && BitAt(x, 2) == (x / 4 % 2 == 1)
  {
    assert BitAt(x, 2) == BitAt(x / 2, 1) == BitAt(x / 2 / 2, 0);
    assert BitAt(x, 1) == BitAt(x / 2, 0);
  }

  lemma ClearedBits(x: nat, ones: nat)
    requires x < 8 && ones < 8
    ensures var r := Cleared(x, ones);
      && (r % 2 == 1 <==> x % 2 == 1 && ones % 2 == 0)
      && (r / 2 % 2 == 1 <==> x / 2 % 2 == 1 && ones / 2 % 2 == 0)
      && (r / 4 % 2 == 1 <==> x / 4 % 2 == 1 && ones / 4 % 2 == 0)
  {
  }

  /** Bits 0 and 1 of abstractauto arm the data registers and bits 16 to 23 the program buffer: the
      next access to such a register, read or write, starts the last command again, and no other
      access to them does. */
  lemma AutoExecutesExactly(c: Csrs, i: CsrIn, j: CsrIn, addr: nat)
    requires ValidCsrs(c) && ValidCsrIn(i) && ValidCsrIn(j) && c.control.dmactive && !i.busy && !j.busy
    requires i.op.Write? && i.op.addr == ABSTRACTAUTO && (j.op == Read(addr) || (j.op.Write? && j.op.addr == addr))
    requires IsData(addr) || IsProgbuf(addr)
    ensures ValidCsrs(NextCsrs(c, i))
    ensures NextCsrs(NextCsrs(c, i), j).cmdValid
      <==> BitAt(i.op.data, if IsData(addr) then addr - DATA0 else 16 + (addr - PROGBUF0))
  {
    StaysValid(c, i);
    hide BitAt;
    assert IsData(addr) ==> 0 + (addr - DATA0) == addr - DATA0;
  }

  /** dmcontrol reads back the selection and the request bits that were written. */
  lemma ControlRoundTrip(c: Control)
    requires c.hartsel < 0x10_0000
    ensures ControlOf(ControlWord(c)) == c
  {
    var lo, hi := c.hartsel % 0x400, c.hartsel / 0x400;
    var bits := (if c.ndmreset then 2 else 0) + (if c.dmactive then 1 else 0);
    var top := (if c.haltreq then 2 else 0) + (if c.resumereq then 1 else 0);
    ControlFields(top, lo, hi, bits);
    assert ControlWord(c) == top * 0x4000_0000 + lo * 0x1_0000 + hi * 64 + bits;
  }

  lemma ControlFields(top: nat, lo: nat, hi: nat, bits: nat)
    requires top < 4 && lo < 0x400 && hi < 0x400 && bits < 4
    ensures var w := top * 0x4000_0000 + lo * 0x1_0000 + hi * 64 + bits;
      && w / 0x8000_0000 == top / 2 && w / 0x4000_0000 % 2 == top % 2
      && w / 64 % 0x400 == hi && w / 0x1_0000 % 0x400 == lo
      && w / 2 % 2 == bits / 2 && w % 2 == bits % 2
  {
    Split(top, lo * 0x1_0000 + hi * 64 + bits, 0x4000_0000);
    Split(top / 2, top % 2 * 0x4000_0000 + lo * 0x1_0000 + hi * 64 + bits, 0x8000_0000);
    Split(top * 0x4000 + lo, hi * 64 + bits, 0x1_0000);
    Split(top * 16, lo, 0x400);
    Split((top * 0x4000 + lo) * 0x400 + hi, bits, 64);
    Split(top * 0x4000 + lo, hi, 0x400);
    LowBits((top * 0x4000 + lo) * 0x400 + hi, bits);
  }

  lemma LowBits(high: nat, bits: nat)
    requires bits < 4
    ensures (high * 64 + bits) / 2 % 2 == bits / 2 && (high * 64 + bits) % 2 == bits % 2
  {
    Split(high * 32 + bits / 2, bits % 2, 2);
    Split(high * 16, bits / 2, 2);
  }

  lemma Split(high: nat, low: nat, m: nat)
    requires low < m
    ensures (high * m + low) / m == high && (high * m + low) % m == low
  {
    SplitAt(high, low, m);
  }

  // ---- The registers as a clocked object -----------------------------------------------------

  // ---- What the debugger's words mean ----------------------------------------------------------

  /** Bits by recursion are bits by division. */
  lemma {:induction false} BitByDivision(w: nat, k: nat)
    ensures BitAt(w, k) <==> w / Pow2(k) % 2 == 1
    decreases k
  {
    if k > 0 {
      BitByDivision(w / 2, k - 1);
      HalvesTwice(w, Pow2(k - 1));
    }
  }

  lemma HalfOfRemainder(x: nat, p: nat)
    requires p > 0
    ensures x % (2 * p) == x / 2 % p * 2 + x % 2
  {
    var q, r, b := x / 2 / p, x / 2 % p, x % 2;
    assert x == 2 * (q * p + r) + b;
    assert x == q * (2 * p) + (2 * r + b);
    SplitAt(q, 2 * r + b, 2 * p);
  }

  /** The low bits of a remainder are those of the number. */
  lemma {:induction false} BitOfRemainder(x: nat, m: nat, k: nat)
    requires k < m
    ensures BitAt(x % Pow2(m), k) == BitAt(x, k)
    decreases m
  {
    HalfOfRemainder(x, Pow2(m - 1));
    var r := x / 2 % Pow2(m - 1);
    assert x % Pow2(m) == r * 2 + x % 2;
    SplitAt(r, x % 2, 2);
    if k > 0 { BitOfRemainder(x / 2, m - 1, k - 1); }
  }

  /** A number shifted down by n bits. */
  function ShiftedDown(x: nat, n: nat): nat
    decreases n
  {
    if n == 0 then x else ShiftedDown(x / 2, n - 1)
  }

  lemma {:induction false} ShiftedIsQuotient(x: nat, n: nat)
    ensures ShiftedDown(x, n) == x / Pow2(n)
    decreases n
  {
    if n > 0 {
      HalvesTwice(x, Pow2(n - 1));
      ShiftedIsQuotient(x / 2, n - 1);
    }
  }

  lemma {:induction false} BitOfShifted(x: nat, n: nat, k: nat)
    ensures BitAt(ShiftedDown(x, n), k) == BitAt(x, n + k)
    decreases n
  {
    if n > 0 { BitOfShifted(x / 2, n - 1, k); }
  }

  /** The bits of a quotient lie higher in the number. */
  lemma BitOfQuotient(x: nat, n: nat, q: nat, k: nat)
    requires q == x / Pow2(n)
    ensures BitAt(q, k) == BitAt(x, n + k)
  {
    ShiftedIsQuotient(x, n);
    BitOfShifted(x, n, k);
  }

  lemma ControlPowers()
    ensures Pow2(1) == 2 && Pow2(6) == 64 && Pow2(10) == 0x400 && Pow2(16) == 0x1_0000 && Pow2(30) == 0x4000_0000 && Pow2(31) == 0x8000_0000
  {
    assert Pow2(4) == 16 && Pow2(8) == 0x100 && Pow2(12) == 0x1000;
    assert Pow2(20) == 0x10_0000 && Pow2(24) == 0x100_0000 && Pow2(28) == 0x1000_0000;
  }

  lemma FlagBits(w: Word)
    ensures ControlOf(w).haltreq == BitAt(w, 31) && ControlOf(w).resumereq == BitAt(w, 30)
    ensures ControlOf(w).ndmreset == BitAt(w, 1) && ControlOf(w).dmactive == BitAt(w, 0)
  {
    hide BitAt, Pow2;
    ControlPowers();
    BitByDivision(w, 31);
    BitByDivision(w, 30);
    BitByDivision(w, 1);
    BitByDivision(w, 0);
    PowerZero();
    assert w / 0x8000_0000 < 2;
  }

  lemma PowerZero()
    ensures Pow2(0) == 1
  {
  }

  lemma SelectBit(w: Word, k: nat)
    requires k < 20
    ensures BitAt(ControlOf(w).hartsel, k) == BitAt(w, if k < 10 then 16 + k else k - 4)
  {
    hide BitAt, Pow2;
    ControlPowers();
    var low, high := w / 0x1_0000 % 0x400, w / 64 % 0x400;
    assert ControlOf(w).hartsel == high * 0x400 + low;
    SplitAt(high, low, 0x400);
    if k < 10 {
      BitOfRemainder(high * 0x400 + low, 10, k);
      BitOfRemainder(w / 0x1_0000, 10, k);
      BitOfQuotient(w, 16, w / 0x1_0000, k);
    } else {
      BitOfQuotient(high * 0x400 + low, 10, high, k - 10);
      BitOfRemainder(w / 64, 10, k - 10);
      BitOfQuotient(w, 6, w / 64, k - 10);
    }
  }

  /** A write of dmcontrol at 0x10: haltreq is bit 31, resumereq bit 30, ndmreset bit 1, dmactive bit 0;
      bits 25 to 16 are the low ten bits of the hart selection, bits 15 to 6 the high ten. */
  lemma ControlWritten(c: Csrs, i: CsrIn, w: Word)
    requires ValidCsrs(c) && ValidCsrIn(i) && c.control.dmactive && i.op == Write(0x10, w)
    requires !c.control.resumereq || i.acks == []
    ensures var n := NextCsrs(c, i).control;
      && n.haltreq == BitAt(w, 31) && n.resumereq == BitAt(w, 30) && n.ndmreset == BitAt(w, 1) && n.dmactive == BitAt(w, 0)
      && n.hartsel < 0x10_0000
      && forall k :: 0 <= k < 20 ==> BitAt(n.hartsel, k) == BitAt(w, if k < 10 then 16 + k else k - 4)
  {
    hide BitAt, ControlOf;
    FlagBits(w);
    forall k | 0 <= k < 20 ensures BitAt(NextCsrs(c, i).control.hartsel, k) == BitAt(w, if k < 10 then 16 + k else k - 4) {
      SelectBit(w, k);
    }
  }

  /** While a command runs exactly these requests are refused, which shows as error 1: accesses to the
      data registers at 0x04 and 0x05 and the program buffer at 0x20 to 0x27, and writes of
      abstractcs, command and abstractauto at 0x16 to 0x18. */
  lemma RefusedWhileBusy(c: Csrs, i: CsrIn)
    requires ValidCsrs(c) && ValidCsrIn(i) && c.control.dmactive && c.cmderr == 0 && i.error == ErrNone && i.busy
    ensures var touches := i.op != Nothing && (i.op.addr == 4 || i.op.addr == 5 || 0x20 <= i.op.addr <= 0x27);
      NextCsrs(c, i).cmderr == if touches || (i.op.Write? && 0x16 <= i.op.addr <= 0x18) then 1 else 0
  {
    hide Cleared;
  }

  /** Accepted writes of the data registers, the program buffer and the command, by address. */
  lemma WordsWritten(c: Csrs, i: CsrIn, a: nat, w: Word)
    requires ValidCsrs(c) && ValidCsrIn(i) && c.control.dmactive && !i.busy && !i.dataValid && i.op == Write(a, w)
    ensures var n := NextCsrs(c, i);
      && n.data == (if a == 4 then [w, c.data[1]] else if a == 5 then [c.data[0], w] else c.data)
      && |n.progbuf| == 8 && (forall k :: 0 <= k < 8 ==> n.progbuf[k] == if a == 0x20 + k then w else c.progbuf[k])
      && n.command == (if a == 0x17 then w else c.command) && (a == 0x17 ==> n.cmdValid)
  {
    hide Cleared;
  }

  /** abstractcs at 0x16: the ones in bits 10 to 8 clear those bits of the error. */
  lemma ErrorWritten(c: Csrs, i: CsrIn, w: Word, k: nat)
    requires ValidCsrs(c) && ValidCsrIn(i) && c.control.dmactive && !i.busy && i.error == ErrNone && i.op == Write(0x16, w) && k < 3
    ensures BitAt(NextCsrs(c, i).cmderr, k) <==> BitAt(c.cmderr, k) && !BitAt(w, 8 + k)
  {
    hide BitAt, Pow2, Cleared;
    WriteOneClears(c, i, k);
    EightAndThree();
    BitOfRemainder(w / 0x100, 3, k);
    BitOfQuotient(w, 8, w / 0x100, k);
  }

  lemma EightAndThree()
    ensures Pow2(8) == 0x100 && Pow2(3) == 8
  {
    assert Pow2(4) == 16;
  }

  /** abstractauto at 0x18: with bit 0 or 1, 16 to 23 set the next access to 0x04 or 0x05, 0x20 to 0x27
      starts the last command again. */
  lemma AutoByAddress(c: Csrs, i: CsrIn, j: CsrIn, w: Word, a: nat)
    requires ValidCsrs(c) && ValidCsrIn(i) && ValidCsrIn(j) && c.control.dmactive && !i.busy && !j.busy
    requires i.op == Write(0x18, w) && (j.op == Read(a) || (j.op.Write? && j.op.addr == a))
    requires a == 4 || a == 5 || 0x20 <= a <= 0x27
    ensures ValidCsrs(NextCsrs(c, i))
    ensures NextCsrs(NextCsrs(c, i), j).cmdValid <==> BitAt(w, if a <= 5 then a - 4 else a - 16)
  {
    hide BitAt;
    AutoExecutesExactly(c, i, j, a);
  }

  /** A cycle with a request and nothing from the harts. */
  function RequestOnly(c: Csrs, op: Dmi, busy: bool): (i: CsrIn)
    requires ValidCsrs(c)
    ensures ValidCsrIn(i) && i.op == op && i.busy == busy
  {
    CsrIn(op, busy, ErrNone, false, c.data, [])
  }

  /** What comes from the harts is applied after the request. */
  lemma HartsComeLast(c: Csrs, i: CsrIn)
    requires ValidCsrs(c) && ValidCsrIn(i)
    ensures var r := RequestOnly(c, i.op, i.busy);
      && NextCmdErr(c, i) == (if i.error != ErrNone then Code(i.error) else NextCmdErr(c, r))
      && NextData(c, i) == if i.dataValid then i.data else NextData(c, r)
  {
    hide Cleared;
  }

  class DmCsrs {
    var control: Control
    var cmderr: nat
    var command: Word
    var cmdValid: bool
    var autoData: seq<bool>
    var autoProgbuf: seq<bool>
    var progbuf: seq<Word>
    var data: seq<Word>

    function State(): Csrs
      reads this
    {
      Csrs(control, cmderr, command, cmdValid, autoData, autoProgbuf, progbuf, data)
    }

    ghost predicate Valid()
      reads this
    {
      ValidCsrs(State())
    }

    constructor ()
      ensures Valid() && State() == RESET_CSRS
    {
      control := RESET_CSRS.control;
      cmderr, command, cmdValid, autoData, autoProgbuf := 0, 0, false, Disarmed(2), Disarmed(8);
      progbuf, data := RESET_CSRS.progbuf, RESET_CSRS.data;
    }

    /** The accepted request; reports whether it starts the command. */
    method Serve(op: Dmi, busy: bool) returns (start: bool)
      requires Valid()
      modifies this`cmderr, this`command, this`autoData, this`autoProgbuf, this`progbuf, this`data
      ensures Valid()
      ensures var c := old(State());
        var i := RequestOnly(c, op, busy);
        && start == StartsCommand(c, op, busy)
        && State() == Csrs(c.control, NextCmdErr(c, i), NextCommand(c, op, busy), c.cmdValid,
                           NextAuto(c, op, busy).0, NextAuto(c, op, busy).1, NextProgbuf(c, op, busy), NextData(c, i))
    {
      hide BitAt, BitsFrom;
      start := false;
      if busy {
        if Guarded(op) && cmderr == 0 { cmderr := Code(ErrBusy); }
        return;
      }
      match op {
        case Nothing =>
        case Read(a) => start := AutoExecutes(State(), a);
        case Write(a, d) =>
          start := a == COMMAND || AutoExecutes(State(), a);
          if IsData(a) { data := data[a - DATA0 := d]; }
          else if a == ABSTRACTCS { cmderr := Cleared(cmderr, d / 0x100 % 8); }
          else if a == COMMAND { command := d; }
          else if a == ABSTRACTAUTO { autoData, autoProgbuf := BitsFrom(d, 0, 2), BitsFrom(d, 16, 8); }
          else if IsProgbuf(a) { progbuf := progbuf[a - PROGBUF0 := d]; }
      }
    }

    /** The synchronous reset of an inactive module. */
    method Clear(dmactive: bool)
      modifies this
      ensures State() == RESET_CSRS.(control := RESET_CSRS.control.(dmactive := dmactive))
    {
      control := Control(false, false, 0, false, dmactive);
      cmderr, command, cmdValid, autoData, autoProgbuf := 0, 0, false, Disarmed(2), Disarmed(8);
      progbuf, data := [0, 0, 0, 0, 0, 0, 0, 0], [0, 0];
    }

    /** The control register, whose resume request a resume acknowledgement clears. */
    method MoveControl(op: Dmi, acks: seq<bool>)
      requires Valid()
      modifies this`control
      ensures control == (var d := RequestedControl(old(State()), op);
                          if old(control).resumereq && AnyAck(acks) then d.(resumereq := false) else d)
    {
      hide ControlOf, AnyAck;
      var requested := if op.Write? && op.addr == DMCONTROL then ControlOf(op.data) else control;
      if control.resumereq && AnyAck(acks) { requested := requested.(resumereq := false); }
      control := requested;
    }

    /** One rising clock edge: reads and writes, then hart error, hart data and resume
        acknowledgement. */
    method Tick(i: CsrIn)
      requires Valid() && ValidCsrIn(i)
      modifies this
      ensures Valid() && State() == NextCsrs(old(State()), i)
    {
      hide AnyAck, ControlOf, StartsCommand, NextProgbuf, NextAuto, NextCommand, NextCmdErr, NextData, RequestOnly, ValidCsrs;
      StaysValid(State(), i);
      HartsComeLast(State(), i);
      if !control.dmactive {
        MoveControl(i.op, []);
        Clear(control.dmactive);
        return;
      }
      var start := Serve(i.op, i.busy);
      MoveControl(i.op, i.acks);
      cmdValid := start;
      if i.error != ErrNone { cmderr := Code(i.error); }
      if i.dataValid { data := i.data; }
    }
  }
}
