/** Abstract commands and the compiler that turns one into a ten-word program. */
module AbstractCommands {
  import opened Words
  import opened Riscv
  import opened DebugRom

  // ---- Fields of the command register ---------------------------------------------------

  function CmdType(c: Word): nat { c / 0x100_0000 }
  function Aarsize(c: Word): nat { c / 0x10_0000 % 8 }
  predicate PostIncrement(c: Word) { c / 0x8_0000 % 2 == 1 }
  predicate PostExec(c: Word) { c / 0x4_0000 % 2 == 1 }
  predicate Transfer(c: Word) { c / 0x2_0000 % 2 == 1 }
  predicate IsWrite(c: Word) { c / 0x1_0000 % 2 == 1 }
  function Regno(c: Word): nat { c % 0x1_0000 }

  const ACCESS_REGISTER: nat := 0
  const MAX_AAR: nat := 3   // byte, half-word and word accesses on the 32-bit bus

  /** The register a transfer names. Bit 13 and, for registers proper, bits 11 to 6 of the
      number are ignored by the compiler. */
  datatype Target = Gpr(r: Reg) | Fpr(r: Reg) | Csr(a: nat)

  function TargetOf(c: Word): Target {
    if Regno(c) / 0x1000 % 2 == 1 then
      if Regno(c) / 32 % 2 == 1 then Fpr(Regno(c) % 32) else Gpr(Regno(c) % 32)
    else Csr(Regno(c) % 0x1000)
  }

  /** Access to a0 itself, when a0 carries the base address of the debug module. */
  predicate TakesA0(two: bool, c: Word) {
    two && TargetOf(c) == Gpr(A0)
  }

  // ---- The generated words --------------------------------------------------------------

  /** The program before the command is looked at; word i of slot pair i/2. */
  function DefaultWords(two: bool): seq<Word> {
    [ILLEGAL_WORD,
     if two then EncodeAuipcZero(A0) else NOP_WORD,
     if two then EncodeSrli(A0, A0, 12) else NOP_WORD,
     if two then EncodeSlli(A0, A0, 12) else NOP_WORD,
     NOP_WORD, NOP_WORD, NOP_WORD, NOP_WORD,
     if two then EncodeCsrr(CSR_DSCRATCH1, A0) else NOP_WORD,
     EBREAK_WORD]
  }

  /** The command asks for something the compiler refuses. */
  predicate Unsupported(c: Word) {
    if CmdType(c) != ACCESS_REGISTER then true
    else if Aarsize(c) < MAX_AAR && Transfer(c) then Regno(c) / 0x4000 != 0
    else Aarsize(c) >= MAX_AAR || PostIncrement(c)
  }

  /** Four words that move the register between the hart and the data register. */
  function TransferWords(two: bool, c: Word): seq<Word>
    requires Aarsize(c) < MAX_AAR
  {
    var size, base := Aarsize(c), Base(two);
    if TakesA0(two, c) then
      if IsWrite(c) then
        [EncodeCsrw(CSR_DSCRATCH0, S0), EncodeLoad(size, S0, base, DATA),
         EncodeCsrw(CSR_DSCRATCH1, S0), EncodeCsrr(CSR_DSCRATCH0, S0)]
      else
        [EncodeCsrw(CSR_DSCRATCH0, S0), EncodeCsrr(CSR_DSCRATCH1, S0),
         EncodeStore(size, S0, base, DATA), EncodeCsrr(CSR_DSCRATCH0, S0)]
    else match TargetOf(c)
      case Fpr(r) =>
        [if IsWrite(c) then EncodeFloatLoad(size, r, base, DATA) else EncodeFloatStore(size, r, base, DATA),
         NOP_WORD, NOP_WORD, NOP_WORD]
      case Gpr(r) =>
        [if IsWrite(c) then EncodeLoad(size, r, base, DATA) else EncodeStore(size, r, base, DATA),
         NOP_WORD, NOP_WORD, NOP_WORD]
      case Csr(a) =>
        if IsWrite(c) then
          [EncodeCsrw(CSR_DSCRATCH0, S0), EncodeLoad(size, S0, base, DATA),
           EncodeCsrw(a, S0), EncodeCsrr(CSR_DSCRATCH0, S0)]
        else
          [EncodeCsrw(CSR_DSCRATCH0, S0), EncodeCsrr(a, S0),
           EncodeStore(size, S0, base, DATA), EncodeCsrr(CSR_DSCRATCH0, S0)]
  }

  /** The words served at the abstract command addresses. */
  function CommandWords(two: bool, c: Word): (w: seq<Word>)
    ensures |w| == 10
  {
    var d := DefaultWords(two);
    if Unsupported(c) then d[0 := EBREAK_WORD]
    else
      var last := if PostExec(c) then NOP_WORD else EBREAK_WORD;
      if !Transfer(c) then d[9 := last]
      else
        var t := TransferWords(two, c);
        [if two then EncodeCsrw(CSR_DSCRATCH1, A0) else NOP_WORD, d[1], d[2], d[3],
         t[0], t[1], t[2], t[3], d[8], last]
  }

  // ---- What the words mean --------------------------------------------------------------

  function FloatAccess(size: nat, write: bool, r: Reg, base: Reg): Instr {
    if size != 2 then Illegal else if write then FLoad(r, base, DATA) else FStore(r, base, DATA)
  }

  /** The four middle instructions of a transfer. */
  function TransferProgram(two: bool, c: Word): seq<Instr>
    requires Aarsize(c) < MAX_AAR
  {
    var size, base := Aarsize(c), Base(two);
    match TargetOf(c)
    case Fpr(r) => [FloatAccess(size, IsWrite(c), r, base), NOP, NOP, NOP]
    case Gpr(r) =>
      if TakesA0(two, c) then ThroughS0(two, size, IsWrite(c), CSR_DSCRATCH1)
      else [if IsWrite(c) then Load(size, r, base, DATA) else Store(size, r, base, DATA), NOP, NOP, NOP]
    case Csr(a) => ThroughS0(two, size, IsWrite(c), a)
  }

  /** A CSR is moved through s0, which is parked in dscratch0 meanwhile. */
  function ThroughS0(two: bool, size: nat, write: bool, a: nat): seq<Instr> {
    if write then
      [Csrrw(0, CSR_DSCRATCH0, S0), Load(size, S0, Base(two), DATA), Csrrw(0, a, S0), Csrr(S0, CSR_DSCRATCH0)]
    else
      [Csrrw(0, CSR_DSCRATCH0, S0), Csrr(S0, a), Store(size, S0, Base(two), DATA), Csrr(S0, CSR_DSCRATCH0)]
  }

  /** The instruction a hart sees in each slot. */
  function Program(two: bool, c: Word, i: nat): Instr
    requires i < 10
  {
    if i == 0 then
      if Unsupported(c) then Ebreak
      else if !Transfer(c) then Illegal
      else if two then Csrrw(0, CSR_DSCRATCH1, A0) else NOP
    else if i == 1 then if two then Auipc(A0, 0) else NOP
    else if i == 2 then if two then Srli(A0, A0, 12) else NOP
    else if i == 3 then if two then Slli(A0, A0, 12) else NOP
    else if i < 8 then
      if Unsupported(c) || !Transfer(c) then NOP else TransferProgram(two, c)[i - 4]
    else if i == 8 then if two then Csrr(A0, CSR_DSCRATCH1) else NOP
    else if Unsupported(c) || !PostExec(c) then Ebreak else NOP
  }

  lemma TransferDecodes(two: bool, c: Word, i: nat)
    requires Aarsize(c) < MAX_AAR && i < 4
    ensures Decode(TransferWords(two, c)[i]) == TransferProgram(two, c)[i]
  {
    hide Decode, EncodeLoad, EncodeStore, EncodeCsrw, EncodeCsrr, EncodeFloatLoad, EncodeFloatStore,
      Aarsize, IsWrite, Regno;
    var size := Aarsize(c);
    DecodeFixedWords(0);
    DecodeEncodedCsr(CSR_DSCRATCH0, S0);
    DecodeEncodedCsr(CSR_DSCRATCH1, S0);
    DecodeEncodedLoad(size, S0, Base(two), DATA);
    DecodeEncodedStore(size, S0, Base(two), DATA);
    match TargetOf(c)
    case Fpr(r) => DecodeEncodedFloat(size, r, Base(two), DATA);
    case Gpr(r) =>
      DecodeEncodedLoad(size, r, Base(two), DATA);
      DecodeEncodedStore(size, r, Base(two), DATA);
    case Csr(a) => DecodeEncodedCsr(a, S0);
  }

  /** The compiler emits what the program says: for every command word, supported or not,
      each of the ten words decodes to the instruction listed for its slot. */
  lemma CommandWordsDecode(two: bool, c: Word, i: nat)
    requires i < 10
    ensures Decode(CommandWords(two, c)[i]) == Program(two, c, i)
  {
    hide Decode, EncodeCsrw, EncodeCsrr, EncodeSlli, EncodeSrli, EncodeAuipcZero, TransferWords, TransferProgram,
      PostExec, Transfer, PostIncrement, CmdType, Regno;
    DecodeFixedWords(A0);
    DecodeEncodedCsr(CSR_DSCRATCH1, A0);
    DecodeEncodedShift(A0, A0, 12);
    if !Unsupported(c) && Transfer(c) && 4 <= i < 8 {
      TransferDecodes(two, c, i - 4);
    }
  }

  /** Post-increment is not implemented but not refused either: a register transfer that asks
      for it is accepted and compiles to the very program of the one that does not. */
  lemma PostIncrementIgnored(two: bool, c: Word)
    requires CmdType(c) == ACCESS_REGISTER && Aarsize(c) < MAX_AAR && Transfer(c) && PostIncrement(c)
    ensures !PostIncrement(c - 0x8_0000)
    ensures Unsupported(c) == Unsupported(c - 0x8_0000) == (Regno(c) >= 0x4000)
    ensures CommandWords(two, c) == CommandWords(two, c - 0x8_0000)
  {
    hide Aarsize, CmdType, Regno, PostExec, Transfer, IsWrite, PostIncrement, CommandWords;
    BitCleared(c);
    SameCompilation(two, c, c - 0x8_0000);
  }

  /** The words depend on the fields that the compiler looks at. */
  lemma SameCompilation(two: bool, c: Word, d: Word)
    requires Transfer(c) && Transfer(d) && Aarsize(c) == Aarsize(d) < MAX_AAR && CmdType(c) == CmdType(d)
    requires PostExec(c) == PostExec(d) && IsWrite(c) == IsWrite(d) && Regno(c) == Regno(d)
    ensures CommandWords(two, c) == CommandWords(two, d)
  {
    hide Aarsize, CmdType, Regno, PostExec, Transfer, IsWrite, PostIncrement, DefaultWords, EncodeCsrw, EncodeCsrr, EncodeLoad,
      EncodeStore, EncodeFloatLoad, EncodeFloatStore;
    if !Unsupported(c) {
      assert TransferWords(two, c) == TransferWords(two, d);
    }
  }

  /** Clearing the bit changes no other field. */
  lemma BitCleared(c: Word)
    requires PostIncrement(c)
    ensures c >= 0x8_0000
    ensures var d := c - 0x8_0000;
      && !PostIncrement(d) && CmdType(d) == CmdType(c) && Aarsize(d) == Aarsize(c) && Regno(d) == Regno(c)
      && PostExec(d) == PostExec(c) && Transfer(d) == Transfer(c) && IsWrite(d) == IsWrite(c)
  {
    var high, low := c / 0x10_0000, c % 0x8_0000;
    BitNineteen(c);
    hide Aarsize, CmdType, Regno, PostExec, Transfer, IsWrite, PostIncrement;
    FieldsSplit(high, 1, low);
    FieldsSplit(high, 0, low);
  }

  lemma BitNineteen(c: Word)
    requires PostIncrement(c)
    ensures c == c / 0x10_0000 * 0x10_0000 + 0x8_0000 + c % 0x8_0000
  {
    assert c / 0x8_0000 == 2 * (c / 0x10_0000) + 1;
  }

  /** The fields of a command word around bit 19. */
  lemma FieldsSplit(high: nat, bit19: nat, low: nat)
    requires high < 0x1000 && bit19 < 2 && low < 0x8_0000
    ensures var c := high * 0x10_0000 + bit19 * 0x8_0000 + low;
      && CmdType(c) == high / 16 && Aarsize(c) == high % 8 && PostIncrement(c) == (bit19 == 1)
      && PostExec(c) == (low / 0x4_0000 == 1) && Transfer(c) == (low / 0x2_0000 % 2 == 1)
      && IsWrite(c) == (low / 0x1_0000 % 2 == 1) && Regno(c) == low % 0x1_0000
  {
    var c := high * 0x10_0000 + bit19 * 0x8_0000 + low;
    var q := low / 0x1_0000;
    SplitAt(high * 16 + bit19 * 8 + q, low % 0x1_0000, 0x1_0000);
    UpperHalf(c);
    UpperHalf(low);
    UpperBits(high, bit19, q);
  }

  lemma UpperHalf(c: nat)
    ensures c / 0x2_0000 == c / 0x1_0000 / 2 && c / 0x4_0000 == c / 0x1_0000 / 4
    ensures c / 0x8_0000 == c / 0x1_0000 / 8 && c / 0x10_0000 == c / 0x1_0000 / 16
    ensures c / 0x100_0000 == c / 0x1_0000 / 256
  {
  }

  lemma UpperBits(high: nat, b: nat, q: nat)
    requires b < 2 && q < 8
    ensures var n := high * 16 + b * 8 + q;
      && n / 256 == high / 16 && n / 16 == high && n / 8 % 2 == b && n / 4 % 2 == q / 4
      && n / 2 % 2 == q / 2 % 2 && n % 2 == q % 2
  {
    LowBits(high * 2 + b, q);
    SplitAt(high, b * 8 + q, 16);
    SplitAt(high * 2 + b, q, 8);
    SplitAt(high, b, 2);
    SplitAt(high / 16, high % 16 * 16 + b * 8 + q, 256);
  }

  /** The three low bits of a number. */
  lemma LowBits(high: nat, q: nat)
    requires q < 8
    ensures var n := high * 8 + q; n / 4 % 2 == q / 4 && n / 2 % 2 == q / 2 % 2 && n % 2 == q % 2
  {
    SplitAt(high * 2 + q / 4, q % 4, 4);
    SplitAt(high, q / 4, 2);
    SplitAt(high * 4 + q / 2, q % 2, 2);
    SplitAt(high * 2 + q / 4, q / 2 % 2, 2);
  }
}
