/** The register side of the serial port: command decoder, write arbiter, write multiplexer. */
module UartTap {
  import opened Words
  import opened Serdes
  import opened DmiBridge

  // Commands and addresses
  const CMD_NOP: nat := 0
  const CMD_READ: nat := 1
  const CMD_CONT_READ: nat := 2
  const CMD_WRITE: nat := 3
  const CMD_RESET: nat := 7
  const ADDR_IDCODE: nat := 0x01
  const ADDR_DTMCS: nat := 0x10
  const ADDR_DMI: nat := 0x11
  const ADDR_STB0_CS: nat := 0x14
  const ADDR_STB0_D: nat := 0x15
  const ADDR_STB1_CS: nat := 0x16
  const ADDR_STB1_D: nat := 0x17

  const WIDTH: nat := 41
  const MAX_BITS: nat := 48   // the width rounded up to whole bytes

  function WriteLength(addr: nat): (n: nat)
    ensures n <= MAX_BITS
  {
    if addr == ADDR_IDCODE || addr == ADDR_DTMCS || addr == ADDR_STB0_D || addr == ADDR_STB1_D then 32
    else if addr == ADDR_DMI then 41
    else 8
  }

  /** The registers of the serial port and their widths. */
  lemma WidthsByAddress(addr: nat)
    ensures WriteLength(addr) == if addr == 0x11 then 41 else if addr in {0x01, 0x10, 0x15, 0x17} then 32 else 8
  {
  }

  // ---- Command decoder ------------------------------------------------------------------------------

  datatype DecPhase = DecIdle | DecHandover | DecWaitAck

  datatype Dec = Dec(phase: DecPhase, addr: nat, cmd: nat)

  const DEC_RESET := Dec(DecIdle, 0, CMD_NOP)

  /** What the decoder offers the arbiters. */
  predicate WriteOffered(d: Dec) {
    d.phase.DecHandover? && (d.cmd == CMD_WRITE || d.cmd == CMD_RESET)
  }

  predicate ReadOffered(d: Dec) {
    d.phase.DecHandover? && (d.cmd == CMD_READ || d.cmd == CMD_CONT_READ || d.cmd == CMD_RESET)
  }

  function OfferedAddr(d: Dec): nat {
    if d.cmd == CMD_RESET then ADDR_IDCODE else d.addr
  }

  /** A four-phase handover: offer, wait for every arbiter that is asked, wait until all let go. */
  function NextDec(d: Dec, readsCommand: bool, byte: Byte, writeReady: bool, readReady: bool): Dec {
    match d.phase
    case DecIdle => if readsCommand then Dec(DecHandover, byte % 32, byte / 32) else d
    case DecHandover =>
      if !WriteOffered(d) && !ReadOffered(d) then d.(phase := DecIdle)
      else if (WriteOffered(d) ==> writeReady) && (ReadOffered(d) ==> readReady) then d.(phase := DecWaitAck)
      else d
    case DecWaitAck => if !writeReady && !readReady then d.(phase := DecIdle) else d
  }

  /** A command byte has the command in bits 7 to 5 and the address below: 1 and 2 are offered to the
      read side, 3 to the write side, 7 to both with address 1, and the others to nobody. */
  lemma CommandByte(c: nat, a: nat, d: Dec)
    requires c < 8 && a < 32 && d.phase.DecIdle?
    ensures c * 32 + a < 0x100
    ensures var n := NextDec(d, true, c * 32 + a, false, false);
      && (WriteOffered(n) <==> c == 3 || c == 7) && (ReadOffered(n) <==> c == 1 || c == 2 || c == 7)
      && OfferedAddr(n) == if c == 7 then 1 else a
  {
    SplitAt(c, a, 32);
  }

  class CommandDecoder {
    var phase: DecPhase
    var addr: nat
    var cmd: nat

    function State(): Dec
      reads this
    {
      Dec(phase, addr, cmd)
    }

    constructor ()
      ensures State() == DEC_RESET
    {
      phase, addr, cmd := DecIdle, 0, CMD_NOP;
    }

    /** One rising clock edge. */
    method Tick(readsCommand: bool, byte: Byte, writeReady: bool, readReady: bool)
      modifies this
      ensures State() == NextDec(old(State()), readsCommand, byte, writeReady, readReady)
    {
      match phase {
        case DecIdle =>
          if readsCommand { addr, cmd, phase := byte % 32, byte / 32, DecHandover; }
        case DecHandover =>
          if cmd == CMD_RESET {
            if readReady && writeReady { phase := DecWaitAck; }
          } else if cmd == CMD_READ || cmd == CMD_CONT_READ {
            if readReady { phase := DecWaitAck; }
          } else if cmd == CMD_WRITE {
            if writeReady { phase := DecWaitAck; }
          } else {
            phase := DecIdle;
          }
        case DecWaitAck =>
          if !writeReady && !readReady { phase := DecIdle; }
      }
    }
  }

  // ---- Write arbiter -----------------------------------------------------------------------------------

  /** `data` feeds the multiplexer; `reset`, `run` and `length` go to the deserializer. */
  datatype Arb = Arb(
    ready: bool, cmd: nat, addr: nat, data: seq<bool>, reset: bool, run: bool, length: nat, recv: bool)

  const ARB_RESET := Arb(false, CMD_NOP, 0, seq(MAX_BITS, _ => false), true, false, 32, false)

  /** One cycle: the decoder's offer, a shown data byte, the deserializer and the target. */
  datatype ArbIn = ArbIn(valid: bool, cmd: nat, addr: nat, byteShown: bool, done: bool, collected: seq<bool>, ready: bool)

  /** The deserializer runs one cycle after a data byte was shown. A complete word is handed on
      in the cycle after the strobe to the target has risen. */
  function NextArb(a: Arb, i: ArbIn): Arb {
    if i.valid then Arb(true, i.cmd, i.addr, Zeros(MAX_BITS), true, false, WriteLength(i.addr), false)
    else if a.cmd == CMD_RESET then Arb(false, CMD_NOP, a.addr, Zeros(MAX_BITS), true, false, a.length, false)
    else if a.cmd == CMD_WRITE then
      Arb(false, a.cmd, a.addr, if i.done then i.collected else a.data, i.done && i.ready, i.byteShown, a.length, !i.done)
    else a.(ready := false, reset := true, run := false, recv := false)
  }

  class WriteArbiter {
    var ready: bool
    var cmd: nat
    var addr: nat
    var data: seq<bool>
    var reset: bool
    var run: bool
    var length: nat
    var recv: bool

    function State(): Arb
      reads this
    {
      Arb(ready, cmd, addr, data, reset, run, length, recv)
    }

    constructor ()
      ensures State() == ARB_RESET
    {
      ready, cmd, addr, data := false, CMD_NOP, 0, seq(MAX_BITS, _ => false);
      reset, run, length, recv := true, false, 32, false;
    }

    /** One rising clock edge: defaults first, then the branch that applies. */
    method Tick(i: ArbIn)
      modifies this
      ensures State() == NextArb(old(State()), i)
    {
      ready, reset, run, recv := false, true, false, false;
      if i.valid {
        ready, data, cmd, addr, length := true, Zeros(MAX_BITS), i.cmd, i.addr, WriteLength(i.addr);
      } else if cmd == CMD_RESET {
        cmd, data := CMD_NOP, Zeros(MAX_BITS);
      } else if cmd == CMD_WRITE {
        reset, recv, run := false, !i.done, i.byteShown;
        if i.done {
          data := i.collected;
          if i.ready { reset := true; }
        }
      }
    }
  }

  // ---- Write multiplexer ----------------------------------------------------------------------------------

  /** Readiness of the addressed target; writes to unknown addresses always succeed. */
  function TargetReady(addr: nat, dmiReady: bool, stbReady: bool): bool {
    if addr == ADDR_DMI then dmiReady
    else if addr == ADDR_STB0_CS || addr == ADDR_STB0_D || addr == ADDR_STB1_CS || addr == ADDR_STB1_D then stbReady
    else true
  }

  /** The low bits of the write data as a transaction: op, data, address from the lowest bit up. */
  function TransactionOf(bits: seq<bool>): Transaction
    requires |bits| >= WIDTH
  {
    WordOfBits(bits[2..34]);
    Transaction(Value(bits[34..41]), Value(bits[2..34]), OpOf(bits[0], bits[1]))
  }

  function OpOf(b0: bool, b1: bool): Op {
    if b1 then (if b0 then OpReserved else OpWrite) else if b0 then OpRead else OpNop
  }

  lemma WordOfBits(bits: seq<bool>)
    requires |bits| == 32
    ensures Value(bits) < 0x1_0000_0000
  {
    BitsOfValue(bits);
    assert Pow2(8) == 0x100 && Pow2(16) == 0x1_0000 && Pow2(24) == 0x100_0000 && Pow2(32) == 0x1_0000_0000;
  }
}
