/** The command register as a debugger writes it: every field at its bit position, and the ten
    instructions that each register number compiles to. */
module CommandFormat {
  import opened Words
  import opened Riscv
  import opened DebugRom
  import opened AbstractCommands

  // ---- The layout --------------------------------------------------------------------------------

  /** The fields of a command word: type in bits 31 to 24, a reserved bit, access size in bits 22
      to 20, post-increment, program buffer execution, transfer and direction in bits 19 to 16, and
      the register number. */
  datatype Fields = Fields(
    cmdtype: nat, reserved: bool, size: nat, increment: bool, exec: bool, transfer: bool, write: bool, regno: nat)

  predicate InRange(f: Fields) {
    f.cmdtype < 0x100 && f.size < 8 && f.regno < 0x1_0000
  }

  function Weight(b: bool, w: nat): nat {
    if b then w else 0
  }

  function Composed(f: Fields): (c: Word)
    requires InRange(f)
  {
    f.cmdtype * 0x100_0000 + Weight(f.reserved, 0x80_0000) + f.size * 0x10_0000 + Weight(f.increment, 0x8_0000)
    + Weight(f.exec, 0x4_0000) + Weight(f.transfer, 0x2_0000) + Weight(f.write, 0x1_0000) + f.regno
  }

  /** The same word, cut around the post-increment bit. */
  lemma ComposedHalves(f: Fields)
    requires InRange(f)
    ensures var high, upper := f.cmdtype * 16 + Weight(f.reserved, 8) + f.size, Weight(f.exec, 4) + Weight(f.transfer, 2) + Weight(f.write, 1);
      Composed(f) == high * 0x10_0000 + Weight(f.increment, 1) * 0x8_0000 + (upper * 0x1_0000 + f.regno)
  {
  }

  lemma HighFields(cmdtype: nat, reserved: nat, size: nat)
    requires reserved < 2 && size < 8
    ensures var high := cmdtype * 16 + reserved * 8 + size; high / 16 == cmdtype && high / 8 % 2 == reserved && high % 8 == size
  {
    SplitAt(cmdtype, reserved * 8 + size, 16);
    SplitAt(cmdtype * 2 + reserved, size, 8);
    SplitAt(cmdtype, reserved, 2);
  }

  lemma LowFields(upper: nat, regno: nat)
    requires upper < 8 && regno < 0x1_0000
    ensures var low := upper * 0x1_0000 + regno;
      && low < 0x8_0000 && low / 0x4_0000 == upper / 4 && low / 0x2_0000 % 2 == upper / 2 % 2
      && low / 0x1_0000 % 2 == upper % 2 && low % 0x1_0000 == regno
  {
    SplitAt(upper, regno, 0x1_0000);
    SplitAt(upper / 2, upper % 2 * 0x1_0000 + regno, 0x2_0000);
    SplitAt(upper / 4, upper % 4 * 0x1_0000 + regno, 0x4_0000);
  }

  lemma UpperWeights(exec: bool, transfer: bool, write: bool)
    ensures var upper := Weight(exec, 4) + Weight(transfer, 2) + Weight(write, 1);
      upper < 8 && (upper / 4 == 1 <==> exec) && (upper / 2 % 2 == 1 <==> transfer) && (upper % 2 == 1 <==> write)
  {
  }

  /** The compiler finds each field where the debugger put it. */
  lemma FieldsFound(f: Fields)
    requires InRange(f)
    ensures var c := Composed(f);
      && CmdType(c) == f.cmdtype && Aarsize(c) == f.size && PostIncrement(c) == f.increment && PostExec(c) == f.exec
      && Transfer(c) == f.transfer && IsWrite(c) == f.write && Regno(c) == f.regno
  {
    hide CmdType, Aarsize, PostIncrement, PostExec, Transfer, IsWrite, Regno, Composed;
    var upper := Weight(f.exec, 4) + Weight(f.transfer, 2) + Weight(f.write, 1);
    ComposedHalves(f);
    UpperWeights(f.exec, f.transfer, f.write);
    HighFields(f.cmdtype, Weight(f.reserved, 1), f.size);
    LowFields(upper, f.regno);
    FieldsSplit(f.cmdtype * 16 + Weight(f.reserved, 8) + f.size, Weight(f.increment, 1), upper * 0x1_0000 + f.regno);
  }

  lemma HighOf(high: nat)
    ensures high == high / 16 * 16 + high / 8 % 2 * 8 + high % 8
  {
    assert high / 8 == high / 16 * 2 + high / 8 % 2;
  }

  lemma UpperOf(upper: nat)
    requires upper < 16
    ensures upper == upper / 8 % 2 * 8 + upper / 4 % 2 * 4 + upper / 2 % 2 * 2 + upper % 2
  {
  }

  /** Every word is the composition of some fields. */
  lemma EveryWord(c: Word) returns (f: Fields)
    ensures InRange(f) && Composed(f) == c
  {
    hide Composed, Weight;
    var high, upper, regno := c / 0x10_0000, c % 0x10_0000 / 0x1_0000, c % 0x1_0000;
    f := Fields(high / 16, high / 8 % 2 == 1, high % 8, upper / 8 % 2 == 1, upper / 4 % 2 == 1, upper / 2 % 2 == 1, upper % 2 == 1, regno);
    CutThree(c);
    HighOf(high);
    UpperOf(upper);
    ComposedHalves(f);
    WeightOf(high / 8 % 2, 8);
    WeightOf(upper / 8 % 2, 1);
    WeightOf(upper / 4 % 2, 4);
    WeightOf(upper / 2 % 2, 2);
    WeightOf(upper % 2, 1);
    Rejoined(c, high, upper, regno, upper / 8 % 2, upper - upper / 8 % 2 * 8);
  }

  lemma WeightOf(b: nat, w: nat)
    requires b < 2
    ensures Weight(b == 1, w) == b * w
  {
  }

  lemma Rejoined(c: nat, high: nat, upper: nat, regno: nat, bit: nat, rest: nat)
    requires c == high * 0x10_0000 + upper * 0x1_0000 + regno && upper == bit * 8 + rest
    ensures c == high * 0x10_0000 + bit * 0x8_0000 + (rest * 0x1_0000 + regno)
  {
  }

  lemma CutThree(c: Word)
    ensures c == c / 0x10_0000 * 0x10_0000 + c % 0x10_0000 / 0x1_0000 * 0x1_0000 + c % 0x1_0000
    ensures c % 0x10_0000 / 0x1_0000 < 16 && c / 0x10_0000 < 0x1000
  {
  }

  // ---- What is refused -----------------------------------------------------------------------------

  /** Refused is everything but register access of at most 32 bits, with a number below 0x4000 for a
      transfer and without post-increment otherwise. */
  lemma RefusedExactly(f: Fields)
    requires InRange(f)
    ensures Unsupported(Composed(f))
      <==> f.cmdtype != 0 || f.size >= 3 || (f.transfer && f.regno >= 0x4000) || (!f.transfer && f.increment)
  {
    hide CmdType, Aarsize, PostIncrement, Transfer, Regno, Composed;
    FieldsFound(f);
    assert f.regno / 0x4000 != 0 <==> f.regno >= 0x4000;
  }

  // ---- What each register number compiles to ---------------------------------------------------------

  /** The ten generated words as a hart decodes them. */
  function Executed(two: bool, c: Word): (p: seq<Instr>)
    ensures |p| == 10
  {
    seq(10, i requires 0 <= i < 10 => Decode(CommandWords(two, c)[i]))
  }

  /** With a base address: a0 is parked in dscratch1 and becomes the page of the debug memory. */
  function Prologue(two: bool): seq<Instr> {
    if two then [Csrrw(0, 0x7b3, 10), Auipc(10, 0), Srli(10, 10, 12), Slli(10, 10, 12)]
    else [Addi(0, 0, 0), Addi(0, 0, 0), Addi(0, 0, 0), Addi(0, 0, 0)]
  }

  /** a0 comes back; then the break, or on into the program buffer. */
  function Epilogue(two: bool, exec: bool): seq<Instr> {
    [if two then Csrr(10, 0x7b3) else Addi(0, 0, 0), if exec then Addi(0, 0, 0) else Ebreak]
  }

  predicate AccessesRegister(f: Fields) {
    InRange(f) && f.cmdtype == 0 && f.size < 3 && f.transfer && f.regno < 0x4000
  }

  lemma ExecutedSlots(two: bool, f: Fields)
    requires AccessesRegister(f)
    ensures Executed(two, Composed(f))
         == Prologue(two) + TransferProgram(two, Composed(f)) + Epilogue(two, f.exec)
  {
    var c := Composed(f);
    hide CommandWords, Composed, Decode, TransferProgram;
    FieldsFound(f);
    RefusedExactly(f);
    forall i: nat | i < 10 ensures Executed(two, c)[i] == Program(two, c, i) {
      CommandWordsDecode(two, c, i);
    }
  }

  /** Numbers 0x1000 to 0x101f are the integer registers; bit 13 and bits 11 to 6 are ignored.
      The register is loaded from or stored to the data register; a0 itself, while it carries the
      base, goes through s0 and dscratch1. */
  lemma IntegerCommand(two: bool, f: Fields, high: nat, middle: nat, r: Reg)
    requires AccessesRegister(f) && f.regno == high * 0x2000 + 0x1000 + middle * 0x40 + r && high < 2 && middle < 0x40
    ensures var base: Reg := if two then 10 else 0;
      Executed(two, Composed(f)) == Prologue(two) + (
        if two && r == 10 then
          (if f.write then [Csrrw(0, 0x7b2, 8), Load(f.size, 8, base, 0x380), Csrrw(0, 0x7b3, 8), Csrr(8, 0x7b2)]
           else [Csrrw(0, 0x7b2, 8), Csrr(8, 0x7b3), Store(f.size, 8, base, 0x380), Csrr(8, 0x7b2)])
        else
          [if f.write then Load(f.size, r, base, 0x380) else Store(f.size, r, base, 0x380),
           Addi(0, 0, 0), Addi(0, 0, 0), Addi(0, 0, 0)]
      ) + Epilogue(two, f.exec)
  {
    hide Composed, Executed, Regno, Aarsize, IsWrite;
    ExecutedSlots(two, f);
    FieldsFound(f);
    IntegerNumber(f.regno, high, middle, r);
  }

  lemma IntegerNumber(n: nat, high: nat, middle: nat, r: Reg)
    requires n == high * 0x2000 + 0x1000 + middle * 0x40 + r
    requires middle < 0x40
    ensures n / 0x1000 % 2 == 1 && n / 32 % 2 == 0 && n % 32 == r
  {
    SplitAt(high * 2 + 1, middle * 0x40 + r, 0x1000);
    SplitAt(high, 1, 2);
    SplitAt(high * 0x100 + 0x80 + middle * 2, r, 32);
    SplitAt(high * 0x80 + 0x40 + middle, 0, 2);
  }

  /** Numbers 0x1020 to 0x103f are the float registers, moved as words only. */
  lemma FloatCommand(two: bool, f: Fields, high: nat, middle: nat, r: Reg)
    requires AccessesRegister(f) && f.regno == high * 0x2000 + 0x1020 + middle * 0x40 + r && high < 2 && middle < 0x40
    ensures var base: Reg := if two then 10 else 0;
      Executed(two, Composed(f)) == Prologue(two) + [
        if f.size != 2 then Illegal else if f.write then FLoad(r, base, 0x380) else FStore(r, base, 0x380),
        Addi(0, 0, 0), Addi(0, 0, 0), Addi(0, 0, 0)
      ] + Epilogue(two, f.exec)
  {
    hide Composed, Executed, Regno, Aarsize, IsWrite;
    ExecutedSlots(two, f);
    FieldsFound(f);
    FloatNumber(f.regno, high, middle, r);
  }

  lemma FloatNumber(n: nat, high: nat, middle: nat, r: Reg)
    requires n == high * 0x2000 + 0x1020 + middle * 0x40 + r
    requires middle < 0x40
    ensures n / 0x1000 % 2 == 1 && n / 32 % 2 == 1 && n % 32 == r
  {
    SplitAt(high * 2 + 1, middle * 0x40 + 32 + r, 0x1000);
    SplitAt(high, 1, 2);
    SplitAt(high * 0x100 + 0x81 + middle * 2, r, 32);
    SplitAt(high * 0x80 + 0x40 + middle, 1, 2);
  }

  /** Numbers below 0x1000 are CSRs, which go through s0 while dscratch0 keeps it. */
  lemma CsrCommand(two: bool, f: Fields, high: nat, n: nat)
    requires AccessesRegister(f) && f.regno == high * 0x2000 + n && high < 2 && n < 0x1000
    ensures var base: Reg := if two then 10 else 0;
      Executed(two, Composed(f)) == Prologue(two) + (
        if f.write then [Csrrw(0, 0x7b2, 8), Load(f.size, 8, base, 0x380), Csrrw(0, n, 8), Csrr(8, 0x7b2)]
        else [Csrrw(0, 0x7b2, 8), Csrr(8, n), Store(f.size, 8, base, 0x380), Csrr(8, 0x7b2)]
      ) + Epilogue(two, f.exec)
  {
    hide Composed, Executed, Regno, Aarsize, IsWrite;
    ExecutedSlots(two, f);
    FieldsFound(f);
    CsrNumber(f.regno, high, n);
  }

  lemma CsrNumber(m: nat, high: nat, n: nat)
    requires m == high * 0x2000 + n && n < 0x1000
    ensures m / 0x1000 % 2 == 0 && m % 0x1000 == n
  {
    SplitAt(high * 2, n, 0x1000);
    SplitAt(high, 0, 2);
  }

  /** A refused command stops at once; one that asks for nothing executes the illegal word. */
  lemma OtherCommands(two: bool, f: Fields)
    requires InRange(f) && !AccessesRegister(f)
    ensures Executed(two, Composed(f))[0]
         == if f.cmdtype != 0 || f.size >= 3 || f.transfer || f.increment then Ebreak else Illegal
  {
    hide Composed, CmdType, Aarsize, PostIncrement, Transfer, Regno, Unsupported, CommandWords, Decode;
    FieldsFound(f);
    RefusedExactly(f);
    CommandWordsDecode(two, Composed(f), 0);
  }

  /** These are all the numbers: each one below 0x4000 is of one of the three kinds. */
  lemma EveryNumber(n: nat) returns (high: nat, middle: nat, r: Reg, csr: nat)
    requires n < 0x4000
    ensures high < 2 && middle < 0x40
    ensures (csr < 0x1000 && n == high * 0x2000 + csr) || n == high * 0x2000 + 0x1000 + middle * 0x40 + r
         || n == high * 0x2000 + 0x1020 + middle * 0x40 + r
  {
    high, csr := n / 0x2000, n % 0x2000;
    middle, r := csr % 0x1000 / 0x40, csr % 32;
    assert csr >= 0x1000 ==> csr == 0x1000 + middle * 0x40 + csr % 0x40;
    assert csr % 0x40 == r || csr % 0x40 == 32 + r;
  }
}
