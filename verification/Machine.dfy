/** Machine words of the 32-bit configuration and the bytes they are made of. */
module Words {

  type Word = x: nat | x < 0x1_0000_0000
  type Byte = x: nat | x < 0x100
  type Reg = x: nat | x < 32

  /** Byte lane `i` of a word, lane 0 being the least significant. */
  function Lane(w: Word, i: nat): Byte
    requires i < 4
  {
    if i == 0 then w % 0x100
    else if i == 1 then w / 0x100 % 0x100
    else if i == 2 then w / 0x1_0000 % 0x100
    else w / 0x100_0000
  }

  /** Bitwise conjunction. */
  function And(a: nat, b: nat): nat
    decreases b
  {
    if b == 0 then 0 else a % 2 * (b % 2) + 2 * And(a / 2, b / 2)
  }

  /** Arithmetic modulo 2^32. */
  function Wrap(x: int): Word {
    x % 0x1_0000_0000
  }

  function Pow2(n: nat): (p: nat)
    ensures p > 0
  {
    if n == 0 then 1 else 2 * Pow2(n - 1)
  }

  /** Smallest power of two that is at least `n`, starting from `p`. */
  function PowerFrom(p: nat, n: nat): (r: nat)
    requires p > 0
    ensures r >= p && r >= n
    decreases n - p
  {
    if p >= n then p else PowerFrom(2 * p, n)
  }

  /** It is a power of two, and half of it would be too small unless it is the one to start from. */
  lemma {:induction false} PowerFromIsLeast(e: nat, n: nat) returns (k: nat)
    ensures k >= e && PowerFrom(Pow2(e), n) == Pow2(k) && (k > e ==> Pow2(k - 1) < n)
    decreases n - Pow2(e)
  {
    k := e;
    if Pow2(e) < n { k := PowerFromIsLeast(e + 1, n); }
  }

  /** Splitting a concatenation {high, low} at a boundary of weight `m`. */
  lemma SplitAt(high: nat, low: nat, m: nat)
    requires low < m
    ensures (high * m + low) / m == high && (high * m + low) % m == low
  {
    var q, r := (high * m + low) / m, (high * m + low) % m;
    assert q * m + r == high * m + low;
    assert q < high ==> (q + 1) * m <= high * m;
    assert q > high ==> (high + 1) * m <= q * m;
  }

  /** A counter that has reached its range reads zero. */
  lemma AtMostRange(x: nat, m: nat)
    requires x <= m && m > 0
    ensures x % m == if x == m then 0 else x
  {
    if x == m { SplitAt(1, 0, m); } else { SplitAt(0, x, m); }
  }

  lemma HalvesTwice(w: nat, m: nat)
    requires m > 0
    ensures w / (2 * m) == w / 2 / m
  {
    var q, r, b := w / 2 / m, w / 2 % m, w % 2;
    assert w == 2 * (q * m + r) + b;
    assert w == q * (2 * m) + (2 * r + b);
    SplitAt(q, 2 * r + b, 2 * m);
  }

  lemma Associates<T>(a: seq<T>, b: seq<T>, c: seq<T>)
    ensures (a + b) + c == a + (b + c)
  {
  }

  function Pack(b0: Byte, b1: Byte, b2: Byte, b3: Byte): Word {
    b0 + 0x100 * b1 + 0x1_0000 * b2 + 0x100_0000 * b3
  }

  lemma LanesOfPack(b0: Byte, b1: Byte, b2: Byte, b3: Byte)
    ensures Lane(Pack(b0, b1, b2, b3), 0) == b0
    ensures Lane(Pack(b0, b1, b2, b3), 1) == b1
    ensures Lane(Pack(b0, b1, b2, b3), 2) == b2
    ensures Lane(Pack(b0, b1, b2, b3), 3) == b3
  {
    var high := b2 + 0x100 * b3;
    SplitAt(b1 + 0x100 * high, b0, 0x100);
    SplitAt(high, b1, 0x100);
    SplitAt(high, b0 + 0x100 * b1, 0x1_0000);
    SplitAt(b3, b2, 0x100);
    SplitAt(b3, b0 + 0x100 * b1 + 0x1_0000 * b2, 0x100_0000);
  }

  /** A word is made of its lanes; its upper parts are words of the upper lanes. */
  lemma PackOfLanes(w: Word)
    ensures w / 0x100 == Lane(w, 1) + 0x100 * Lane(w, 2) + 0x1_0000 * Lane(w, 3)
    ensures w / 0x1_0000 == Lane(w, 2) + 0x100 * Lane(w, 3)
    ensures Pack(Lane(w, 0), Lane(w, 1), Lane(w, 2), Lane(w, 3)) == w
  {
    var a, b := w / 0x100, w / 0x1_0000;
    assert b == a / 0x100 && w / 0x100_0000 == b / 0x100;
    assert w == 0x100 * a + w % 0x100 && a == 0x100 * b + a % 0x100 && b == 0x100 * (b / 0x100) + b % 0x100;
  }

  /** Sign extension of the low byte, the low half-word or the whole word (size 0, 1, 2). */
  function SignExtend(size: nat, w: Word): Word {
    if size == 0 then
      var b := w % 0x100; if b < 0x80 then b else b + 0xFFFF_FF00
    else if size == 1 then
      var h := w % 0x1_0000; if h < 0x8000 then h else h + 0xFFFF_0000
    else w
  }

  /** `old` with its low 1, 2 or 4 bytes (size 0, 1, 2) taken from `new`. */
  function Overlay(size: nat, old_: Word, new_: Word): Word {
    if size == 0 then old_ / 0x100 * 0x100 + new_ % 0x100
    else if size == 1 then old_ / 0x1_0000 * 0x1_0000 + new_ % 0x1_0000
    else new_
  }
}

/** The RV32 instructions that the debug ROM and the abstract command program use:
    the encoders of the debug package and the decoder a hart applies to a fetched word. */
module Riscv {
  import opened Words

  datatype Instr =
    | Load(size: nat, rd: Reg, rs1: Reg, imm: nat)       // lb, lh, lw, lbu, lhu
    | Store(size: nat, rs2: Reg, rs1: Reg, imm: nat)     // sb, sh, sw
    | FLoad(rd: Reg, rs1: Reg, imm: nat)                 // flw
    | FStore(rs2: Reg, rs1: Reg, imm: nat)               // fsw
    | Addi(rd: Reg, rs1: Reg, imm: nat)
    | Andi(rd: Reg, rs1: Reg, imm: nat)
    | Slli(rd: Reg, rs1: Reg, shamt: nat)
    | Srli(rd: Reg, rs1: Reg, shamt: nat)
    | Add(rd: Reg, rs1: Reg, rs2: Reg)
    | Auipc(rd: Reg, imm: nat)
    | Jal(rd: Reg, offset: int)
    | Bne(rs1: Reg, rs2: Reg, offset: int)
    | Csrrw(rd: Reg, csr: nat, rs1: Reg)
    | Csrr(rd: Reg, csr: nat)                            // csrrs rd, csr, x0
    | Fence
    | Ebreak
    | Dret
    | Illegal

  const NOP := Addi(0, 0, 0)

  // ---- Encoders ----------------------------------------------------------------------

  /** The I-type layout {imm, rs1, funct3, rd, opcode}. */
  function IType(imm: nat, rs1: Reg, funct3: nat, rd: Reg, opcode: nat): Word
    requires imm < 0x1000 && funct3 < 8 && opcode < 0x80
  {
    imm * 0x10_0000 + rs1 * 0x8000 + funct3 * 0x1000 + rd * 0x80 + opcode
  }

  /** The S-type layout {imm[11:5], rs2, rs1, funct3, imm[4:0], opcode}. */
  function SType(imm: nat, rs2: Reg, rs1: Reg, funct3: nat, opcode: nat): Word
    requires imm < 0x1000 && funct3 < 8 && opcode < 0x80
  {
    imm / 32 * 0x200_0000 + rs2 * 0x10_0000 + rs1 * 0x8000 + funct3 * 0x1000 + imm % 32 * 0x80 + opcode
  }

  /** jal: the 21-bit offset is scattered as {imm[20], imm[10:1], imm[11], imm[19:12]}. */
  function EncodeJal(rd: Reg, imm: nat): Word
    requires imm < 0x20_0000
  {
    imm / 0x10_0000 * 0x8000_0000 + imm / 2 % 0x400 * 0x20_0000 + imm / 0x800 % 2 * 0x10_0000
    + imm / 0x1000 % 0x100 * 0x1000 + rd * 0x80 + 0x6f
  }

  function EncodeSlli(rd: Reg, rs1: Reg, shamt: nat): Word
    requires shamt < 64
  {
    IType(shamt, rs1, 1, rd, 0x13)
  }

  function EncodeSrli(rd: Reg, rs1: Reg, shamt: nat): Word
    requires shamt < 64
  {
    IType(shamt, rs1, 5, rd, 0x13)
  }

  function EncodeLoad(size: nat, dest: Reg, base: Reg, offset: nat): Word
    requires size < 8 && offset < 0x1000
  {
    IType(offset, base, size, dest, 0x03)
  }

  function EncodeStore(size: nat, src: Reg, base: Reg, offset: nat): Word
    requires size < 8 && offset < 0x1000
  {
    SType(offset, src, base, size, 0x23)
  }

  function EncodeFloatLoad(size: nat, dest: Reg, base: Reg, offset: nat): Word
    requires size < 8 && offset < 0x1000
  {
    IType(offset, base, size, dest, 0x07)
  }

  function EncodeFloatStore(size: nat, src: Reg, base: Reg, offset: nat): Word
    requires size < 8 && offset < 0x1000
  {
    SType(offset, src, base, size, 0x27)
  }

  /** auipc with a zero immediate, the only one ever generated. */
  function EncodeAuipcZero(rd: Reg): Word {
    rd * 0x80 + 0x17
  }

  function EncodeCsrw(csr: nat, rs1: Reg): Word
    requires csr < 0x1000
  {
    IType(csr, rs1, 1, 0, 0x73)
  }

  function EncodeCsrr(csr: nat, dest: Reg): Word
    requires csr < 0x1000
  {
    IType(csr, 0, 2, dest, 0x73)
  }

  const EBREAK_WORD: Word := 0x0010_0073
  const NOP_WORD: Word := 0x0000_0013
  const ILLEGAL_WORD: Word := 0x0000_0000

  // ---- Decoder -----------------------------------------------------------------------

  function DecodeLoad(size: nat, rd: Reg, rs1: Reg, imm: nat): Instr {
    if size <= 2 || size == 4 || size == 5 then Load(size, rd, rs1, imm) else Illegal
  }

  function DecodeOpImm(funct3: nat, rd: Reg, rs1: Reg, imm: nat): Instr {
    if funct3 == 0 then Addi(rd, rs1, imm)
    else if funct3 == 7 then Andi(rd, rs1, imm)
    else if funct3 == 1 && imm < 32 then Slli(rd, rs1, imm)
    else if funct3 == 5 && imm < 32 then Srli(rd, rs1, imm)
    else Illegal
  }

  function DecodeSystem(w: Word, funct3: nat, rd: Reg, rs1: Reg, csr: nat): Instr {
    if funct3 == 1 then Csrrw(rd, csr, rs1)
    else if funct3 == 2 && rs1 == 0 then Csrr(rd, csr)
    else if w == EBREAK_WORD then Ebreak
    else if w == 0x7b20_0073 then Dret
    else Illegal
  }

  function JalOffset(w: Word): int {
    var magnitude := w / 0x20_0000 % 0x400 * 2 + w / 0x10_0000 % 2 * 0x800 + w / 0x1000 % 0x100 * 0x1000;
    if w < 0x8000_0000 then magnitude else magnitude - 0x10_0000
  }

  function BranchOffset(w: Word): int {
    var magnitude := w / 0x100 % 16 * 2 + w / 0x200_0000 % 64 * 0x20 + w / 0x80 % 2 * 0x800;
    if w < 0x8000_0000 then magnitude else magnitude - 0x1000
  }

  function Decode(w: Word): Instr {
    var opcode := w % 0x80;
    var rd := w / 0x80 % 32;
    var funct3 := w / 0x1000 % 8;
    var rs1 := w / 0x8000 % 32;
    var rs2 := w / 0x10_0000 % 32;
    var immI := w / 0x10_0000;
    var immS := w / 0x200_0000 * 32 + rd;
    if opcode == 0x03 then DecodeLoad(funct3, rd, rs1, immI)
    else if opcode == 0x07 then (if funct3 == 2 then FLoad(rd, rs1, immI) else Illegal)
    else if opcode == 0x13 then DecodeOpImm(funct3, rd, rs1, immI)
    else if opcode == 0x23 then (if funct3 < 3 then Store(funct3, rs2, rs1, immS) else Illegal)
    else if opcode == 0x27 then (if funct3 == 2 then FStore(rs2, rs1, immS) else Illegal)
    else if opcode == 0x17 then Auipc(rd, w / 0x1000)
    else if opcode == 0x33 then (if funct3 == 0 && w / 0x200_0000 == 0 then Add(rd, rs1, rs2) else Illegal)
    else if opcode == 0x6f then Jal(rd, JalOffset(w))
    else if opcode == 0x63 then (if funct3 == 1 then Bne(rs1, rs2, BranchOffset(w)) else Illegal)
    else if opcode == 0x73 then DecodeSystem(w, funct3, rd, rs1, immI)
    else if opcode == 0x0f then Fence
    else Illegal
  }

  // ---- decode(encode(i)) == i ---------------------------------------------------------

  lemma ITypeFields(imm: nat, rs1: Reg, funct3: nat, rd: Reg, opcode: nat)
    requires imm < 0x1000 && funct3 < 8 && opcode < 0x80
    ensures var w := IType(imm, rs1, funct3, rd, opcode);
      && w % 0x80 == opcode && w / 0x80 % 32 == rd && w / 0x1000 % 8 == funct3
      && w / 0x8000 % 32 == rs1 && w / 0x10_0000 == imm
  {
    var w3 := imm * 32 + rs1;
    var w2 := w3 * 8 + funct3;
    var w1 := w2 * 32 + rd;
    SplitAt(w1, opcode, 0x80);
    SplitAt(w2, rd, 32);
    SplitAt(w2, rd * 0x80 + opcode, 0x1000);
    SplitAt(w3, funct3, 8);
    SplitAt(w3, funct3 * 0x1000 + rd * 0x80 + opcode, 0x8000);
    SplitAt(imm, rs1, 32);
    SplitAt(imm, rs1 * 0x8000 + funct3 * 0x1000 + rd * 0x80 + opcode, 0x10_0000);
  }

  lemma STypeFields(imm: nat, rs2: Reg, rs1: Reg, funct3: nat, opcode: nat)
    requires imm < 0x1000 && funct3 < 8 && opcode < 0x80
    ensures var w := SType(imm, rs2, rs1, funct3, opcode);
      && w % 0x80 == opcode && w / 0x1000 % 8 == funct3 && w / 0x8000 % 32 == rs1
      && w / 0x10_0000 % 32 == rs2 && w / 0x200_0000 * 32 + w / 0x80 % 32 == imm
  {
    ITypeFields(imm / 32 * 32 + rs2, rs1, funct3, imm % 32, opcode);
    assert SType(imm, rs2, rs1, funct3, opcode) == IType(imm / 32 * 32 + rs2, rs1, funct3, imm % 32, opcode);
    SplitAt(imm / 32, rs2, 32);
    SplitAt(imm / 32, rs2 * 0x10_0000 + rs1 * 0x8000 + funct3 * 0x1000 + imm % 32 * 0x80 + opcode, 0x200_0000);
  }

  lemma DecodeEncodedLoad(size: nat, reg: Reg, base: Reg, offset: nat)
    requires (size < 3 || size == 4 || size == 5) && offset < 0x1000
    ensures Decode(EncodeLoad(size, reg, base, offset)) == Load(size, reg, base, offset)
  {
    hide JalOffset, BranchOffset;
    ITypeFields(offset, base, size, reg, 0x03);
  }

  lemma DecodeEncodedStore(size: nat, reg: Reg, base: Reg, offset: nat)
    requires size < 3 && offset < 0x1000
    ensures Decode(EncodeStore(size, reg, base, offset)) == Store(size, reg, base, offset)
  {
    hide JalOffset, BranchOffset;
    STypeFields(offset, reg, base, size, 0x23);
  }

  /** The float accesses decode back only for the word size: a hart has no byte or
      half-word float load. */
  lemma DecodeEncodedFloat(size: nat, reg: Reg, base: Reg, offset: nat)
    requires size < 8 && offset < 0x1000
    ensures Decode(EncodeFloatLoad(size, reg, base, offset))
         == if size == 2 then FLoad(reg, base, offset) else Illegal
    ensures Decode(EncodeFloatStore(size, reg, base, offset))
         == if size == 2 then FStore(reg, base, offset) else Illegal
  {
    hide JalOffset, BranchOffset;
    ITypeFields(offset, base, size, reg, 0x07);
    STypeFields(offset, reg, base, size, 0x27);
  }

  lemma DecodeEncodedCsr(csr: nat, reg: Reg)
    requires csr < 0x1000
    ensures Decode(EncodeCsrw(csr, reg)) == Csrrw(0, csr, reg)
    ensures Decode(EncodeCsrr(csr, reg)) == Csrr(reg, csr)
  {
    hide JalOffset, BranchOffset;
    ITypeFields(csr, reg, 1, 0, 0x73);
    ITypeFields(csr, 0, 2, reg, 0x73);
  }

  lemma DecodeEncodedShift(rd: Reg, rs1: Reg, shamt: nat)
    requires shamt < 32
    ensures Decode(EncodeSlli(rd, rs1, shamt)) == Slli(rd, rs1, shamt)
    ensures Decode(EncodeSrli(rd, rs1, shamt)) == Srli(rd, rs1, shamt)
  {
    hide JalOffset, BranchOffset;
    ITypeFields(shamt, rs1, 1, rd, 0x13);
    ITypeFields(shamt, rs1, 5, rd, 0x13);
  }

  lemma JalFields(rd: Reg, sign: nat, low: nat, bit11: nat, high: nat)
    requires sign < 2 && low < 0x400 && bit11 < 2 && high < 0x100
    ensures var w := sign * 0x8000_0000 + low * 0x20_0000 + bit11 * 0x10_0000 + high * 0x1000 + rd * 0x80 + 0x6f;
      && w % 0x80 == 0x6f && w / 0x80 % 32 == rd && w / 0x1000 % 0x100 == high
      && w / 0x10_0000 % 2 == bit11 && w / 0x20_0000 % 0x400 == low && (w < 0x8000_0000 <==> sign == 0)
  {
    var w3 := sign * 0x400 + low;
    var w2 := w3 * 2 + bit11;
    var w1 := w2 * 0x100 + high;
    SplitAt(w1 * 32 + rd, 0x6f, 0x80);
    SplitAt(w1, rd, 32);
    SplitAt(w1, rd * 0x80 + 0x6f, 0x1000);
    SplitAt(w2, high, 0x100);
    SplitAt(w2, high * 0x1000 + rd * 0x80 + 0x6f, 0x10_0000);
    SplitAt(w3, bit11, 2);
    SplitAt(w3, bit11 * 0x10_0000 + high * 0x1000 + rd * 0x80 + 0x6f, 0x20_0000);
    SplitAt(sign, low, 0x400);
  }

  /** The offset of a branch from its upper seven and lower five immediate bits. */
  lemma BranchFields(top: nat, middle: nat, low: nat, opcode: nat)
    requires top < 0x80 && middle < 0x2000 && low < 32 && opcode < 0x80
    ensures ((top * 0x2000 + middle) * 32 + low) * 0x80 + opcode < 0x1_0000_0000
    ensures BranchOffset(((top * 0x2000 + middle) * 32 + low) * 0x80 + opcode)
         == low / 2 * 2 + top % 64 * 0x20 + low % 2 * 0x800 - if top < 64 then 0 else 0x1000
  {
    var high := top * 0x2000 + middle;
    SplitAt(high * 16 + low / 2, low % 2 * 0x80 + opcode, 0x100);
    SplitAt(high, low / 2, 16);
    SplitAt(high * 32 + low, opcode, 0x80);
    SplitAt(high * 16 + low / 2, low % 2, 2);
    SplitAt(top, (middle * 32 + low) * 0x80 + opcode, 0x200_0000);
  }

  lemma JalScatter(imm: nat)
    requires imm < 0x20_0000 && imm % 2 == 0
    ensures imm / 2 % 0x400 * 2 + imm / 0x800 % 2 * 0x800 + imm / 0x1000 % 0x100 * 0x1000
         == if imm < 0x10_0000 then imm else imm - 0x10_0000
  {
    var low := imm / 2 % 0x400;
    assert imm / 0x800 == imm / 2 / 0x400;
    assert imm / 2 == imm / 0x800 * 0x400 + low;
    assert imm / 0x1000 == imm / 0x800 / 2;
    assert imm / 0x10_0000 == imm / 0x1000 / 0x100;
  }

  /** Every even offset that fits in 21 signed bits survives the scattered jal layout. */
  lemma DecodeEncodedJal(rd: Reg, imm: nat)
    requires imm < 0x20_0000 && imm % 2 == 0
    ensures Decode(EncodeJal(rd, imm)) == Jal(rd, if imm < 0x10_0000 then imm else imm - 0x20_0000)
  {
    var sign, low, bit11, high := imm / 0x10_0000, imm / 2 % 0x400, imm / 0x800 % 2, imm / 0x1000 % 0x100;
    JalFields(rd, sign, low, bit11, high);
    JalScatter(imm);
  }

  lemma DecodeEncodedAuipc(rd: Reg)
    ensures Decode(EncodeAuipcZero(rd)) == Auipc(rd, 0)
  {
    hide JalOffset, BranchOffset, DecodeLoad, DecodeOpImm, DecodeSystem;
    ITypeFields(0, 0, 0, rd, 0x17);
    SplitAt(0, rd * 0x80 + 0x17, 0x1000);
  }

  /** Words whose register and function fields are zero. */
  lemma DecodeZeroFields(imm: nat, opcode: nat)
    requires imm < 0x1000 && opcode in {0x0f, 0x13, 0x73}
    ensures var w := IType(imm, 0, 0, 0, opcode);
      Decode(w) == if opcode == 0x13 then Addi(0, 0, imm)
                   else if opcode == 0x73 then DecodeSystem(w, 0, 0, 0, imm) else Fence
  {
    hide JalOffset, BranchOffset, DecodeLoad, DecodeSystem, IType;
    ITypeFields(imm, 0, 0, 0, opcode);
  }

  lemma DecodeIllegal()
    ensures Decode(ILLEGAL_WORD) == Illegal
  {
    hide JalOffset, BranchOffset, DecodeLoad, DecodeOpImm, DecodeSystem;
  }

  lemma DecodeFixedWords(rd: Reg)
    ensures Decode(EncodeAuipcZero(rd)) == Auipc(rd, 0)
    ensures Decode(EBREAK_WORD) == Ebreak
    ensures Decode(NOP_WORD) == NOP
    ensures Decode(ILLEGAL_WORD) == Illegal
  {
    hide Decode, EncodeAuipcZero;
    DecodeEncodedAuipc(rd);
    DecodeZeroFields(1, 0x73);
    DecodeZeroFields(0, 0x13);
    DecodeIllegal();
  }
}
