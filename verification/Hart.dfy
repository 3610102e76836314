/** A minimal RV32 hart: the part of its state that the debug ROM and abstract commands touch. */
module Harts {
  import opened Words
  import opened Riscv
  import opened DebugRom

  /** Where the debug module sits. `base` is its 4 KiB-aligned address; away from the zero page
      the harts need a second scratch register. */
  datatype Config = Config(base: nat, harts: nat)

  predicate ValidConfig(cfg: Config) {
    cfg.base % 0x1000 == 0 && cfg.base < 0x1_0000_0000 && 1 <= cfg.harts <= 1024
  }

  function Two(cfg: Config): bool {
    cfg.base != 0
  }

  /** Integer and floating-point registers, the scratch registers, the other implemented CSRs
      (any access to an absent one traps), the program counter and the debug-mode flag. */
  datatype Hart = Hart(
    id: Word, gpr: seq<Word>, fpu: bool, fpr: seq<Word>, dscratch0: Word, dscratch1: Word,
    csr: map<nat, Word>, pc: Word, debug: bool)

  predicate ValidHart(h: Hart) {
    && |h.gpr| == 32 && h.gpr[0] == 0 && |h.fpr| == 32 && h.id < 1024
    && CSR_DPC in h.csr
    && CSR_DSCRATCH0 !in h.csr && CSR_DSCRATCH1 !in h.csr && CSR_MHARTID !in h.csr
  }

  function SetReg(h: Hart, r: Reg, v: Word): Hart
    requires ValidHart(h)
  {
    if r == 0 then h else h.(gpr := h.gpr[r := v])
  }

  /** Writes to CSR numbers with top bits 11 trap. */
  predicate ReadOnlyCsr(a: nat) {
    a / 0x400 == 3
  }

  predicate CsrExists(h: Hart, a: nat) {
    a == CSR_DSCRATCH0 || a == CSR_DSCRATCH1 || a == CSR_MHARTID || a in h.csr
  }

  function CsrRead(h: Hart, a: nat): Word
    requires ValidHart(h) && CsrExists(h, a)
  {
    if a == CSR_DSCRATCH0 then h.dscratch0
    else if a == CSR_DSCRATCH1 then h.dscratch1
    else if a == CSR_MHARTID then h.id
    else h.csr[a]
  }

  predicate CsrWritable(h: Hart, a: nat) {
    CsrExists(h, a) && !ReadOnlyCsr(a)
  }

  function CsrWrite(h: Hart, a: nat, v: Word): Hart
    requires CsrWritable(h, a)
  {
    if a == CSR_DSCRATCH0 then h.(dscratch0 := v)
    else if a == CSR_DSCRATCH1 then h.(dscratch1 := v)
    else h.(csr := h.csr[a := v])
  }

  /** A load or store as the debug module sees it: an offset in its 4 KiB window. */
  datatype Access =
    | NoAccess
    | ReadAt(offset: nat)
    | WriteAt(offset: nat, wdata: Word, be: seq<bool>)

  function Address(h: Hart, rs1: Reg, imm: nat): Word
    requires ValidHart(h)
  {
    Wrap(h.gpr[rs1] + Signed12(imm))
  }

  /** A 12-bit immediate sign-extended to a word. */
  function Signed12(imm: nat): Word {
    if imm < 0x800 then imm else Wrap(0xFFFF_F000 + imm)
  }

  /** In debug mode a hart reaches only the debug module's window, and only with aligned
      accesses; any other address faults. */
  predicate Reachable(cfg: Config, a: Word, size: nat) {
    cfg.base <= a < cfg.base + 0x1000 && a % (if size == 2 then 4 else if size % 4 == 1 then 2 else 1) == 0
  }

  function ByteEnable(size: nat, lane: nat): seq<bool> {
    if size == 2 then [true, true, true, true]
    else if size == 1 then
      if lane == 0 then [true, true, false, false] else [false, false, true, true]
    else [lane == 0, lane == 1, lane == 2, lane == 3]
  }

  /** Store data moved to the byte lanes it is written on. */
  function Shifted(w: Word, lane: nat): Word {
    if lane == 0 then w
    else if lane == 1 then Wrap(w * 0x100)
    else if lane == 2 then Wrap(w * 0x1_0000)
    else Wrap(w * 0x100_0000)
  }

  /** The bus access of an instruction, decided before it completes. */
  function AccessOf(cfg: Config, h: Hart, i: Instr): Access
    requires ValidHart(h)
  {
    match i
    case Load(size, _, rs1, imm) =>
      if Reachable(cfg, Address(h, rs1, imm), size)
      then ReadAt(Address(h, rs1, imm) - cfg.base) else NoAccess
    case FLoad(_, rs1, imm) =>
      if h.fpu && Reachable(cfg, Address(h, rs1, imm), 2)
      then ReadAt(Address(h, rs1, imm) - cfg.base) else NoAccess
    case Store(size, rs2, rs1, imm) =>
      if Reachable(cfg, Address(h, rs1, imm), size)
      then var a := Address(h, rs1, imm);
           WriteAt(a - cfg.base, Shifted(h.gpr[rs2], a % 4), ByteEnable(size, a % 4))
      else NoAccess
    case FStore(rs2, rs1, imm) =>
      if h.fpu && Reachable(cfg, Address(h, rs1, imm), 2)
      then WriteAt(Address(h, rs1, imm) - cfg.base, h.fpr[rs2], ByteEnable(2, 0))
      else NoAccess
    case _ => NoAccess
  }

  /** The value a load of the given size extracts from the word it reads. */
  function Extract(size: nat, w: Word, lane: nat): Word
    requires lane < 4
  {
    if size == 2 then w
    else if size == 4 then Lane(w, lane)
    else if size == 0 then SignExtend(0, Lane(w, lane))
    else
      var half := if lane < 2 then w % 0x1_0000 else w / 0x1_0000;
      if size == 1 then SignExtend(1, half) else half
  }

  function Next(h: Hart): Hart {
    h.(pc := Wrap(h.pc + 4))
  }

  /** A trap in debug mode changes nothing but the program counter. */
  function Trap(cfg: Config, h: Hart): Hart {
    h.(pc := Wrap(cfg.base + EXCEPTION_VECTOR))
  }

  /** The effect of one instruction in debug mode, given the word its load (if any) returned. */
  function Execute(cfg: Config, h: Hart, i: Instr, rdata: Word): Hart
    requires ValidHart(h)
  {
    match i
    case Load(size, rd, rs1, imm) =>
      if AccessOf(cfg, h, i).NoAccess? then Trap(cfg, h)
      else Next(SetReg(h, rd, Extract(size, rdata, Address(h, rs1, imm) % 4)))
    case FLoad(rd, _, _) =>
      if AccessOf(cfg, h, i).NoAccess? then Trap(cfg, h)
      else Next(h.(fpr := h.fpr[rd := rdata]))
    case Store(_, _, _, _) => if AccessOf(cfg, h, i).NoAccess? then Trap(cfg, h) else Next(h)
    case FStore(_, _, _) => if AccessOf(cfg, h, i).NoAccess? then Trap(cfg, h) else Next(h)
    case Addi(rd, rs1, imm) => Next(SetReg(h, rd, Wrap(h.gpr[rs1] + Signed12(imm))))
    case Andi(rd, rs1, imm) => Next(SetReg(h, rd, Wrap(And(h.gpr[rs1], Signed12(imm)))))
    case Slli(rd, rs1, shamt) => Next(SetReg(h, rd, Wrap(h.gpr[rs1] * Pow2(shamt))))
    case Srli(rd, rs1, shamt) => Next(SetReg(h, rd, Wrap(h.gpr[rs1] / Pow2(shamt))))
    case Add(rd, rs1, rs2) => Next(SetReg(h, rd, Wrap(h.gpr[rs1] as int + h.gpr[rs2] as int)))
    case Auipc(rd, imm) => Next(SetReg(h, rd, Wrap(h.pc + imm * 0x1000)))
    case Jal(rd, offset) =>
      SetReg(h, rd, Wrap(h.pc + 4)).(pc := Wrap(h.pc + offset))
    case Bne(rs1, rs2, offset) =>
      if h.gpr[rs1] != h.gpr[rs2] then h.(pc := Wrap(h.pc + offset)) else Next(h)
    case Csrrw(rd, a, rs1) =>
      if !CsrWritable(h, a) then Trap(cfg, h)
      else Next(SetReg(CsrWrite(h, a, h.gpr[rs1]), rd, CsrRead(h, a)))
    case Csrr(rd, a) =>
      if !CsrExists(h, a) then Trap(cfg, h)
      else Next(SetReg(h, rd, CsrRead(h, a)))
    case Fence => Next(h)
    case Ebreak => h.(pc := Wrap(cfg.base + ROM))
    case Dret => h.(pc := h.csr[CSR_DPC], debug := false)
    case Illegal => Trap(cfg, h)
  }

  lemma SetRegKeepsValid(h: Hart, r: Reg, x: Word)
    requires ValidHart(h)
    ensures ValidHart(SetReg(h, r, x)) && SetReg(h, r, x).id == h.id && SetReg(h, r, x).fpu == h.fpu
  {
  }

  lemma CsrWriteKeepsValid(h: Hart, a: nat, x: Word)
    requires ValidHart(h) && CsrWritable(h, a)
    ensures ValidHart(CsrWrite(h, a, x)) && CsrWrite(h, a, x).id == h.id && CsrWrite(h, a, x).fpu == h.fpu
  {
  }

  predicate UsesCsr(i: Instr) {
    i.Csrrw? || i.Csrr? || i.Dret?
  }

  predicate UsesMemory(i: Instr) {
    i.Load? || i.Store? || i.FLoad? || i.FStore?
  }

  lemma CsrKeepsValid(cfg: Config, h: Hart, i: Instr, rdata: Word)
    requires ValidHart(h) && UsesCsr(i)
    ensures ValidHart(Execute(cfg, h, i, rdata))
    ensures Execute(cfg, h, i, rdata).id == h.id && Execute(cfg, h, i, rdata).fpu == h.fpu
  {
    hide SetReg, CsrWrite, CsrWritable, CsrExists, CsrRead, Wrap;
    match i
    case Csrrw(rd, a, rs1) =>
      if CsrWritable(h, a) {
        CsrWriteKeepsValid(h, a, h.gpr[rs1]);
        WritableExists(h, a);
        SetRegKeepsValid(CsrWrite(h, a, h.gpr[rs1]), rd, CsrRead(h, a));
      }
    case Csrr(rd, a) => if CsrExists(h, a) { SetRegKeepsValid(h, rd, CsrRead(h, a)); }
    case Dret =>
  }

  lemma WritableExists(h: Hart, a: nat)
    requires CsrWritable(h, a)
    ensures CsrExists(h, a)
  {
  }

  lemma MemoryKeepsValid(cfg: Config, h: Hart, i: Instr, rdata: Word)
    requires ValidHart(h) && UsesMemory(i)
    ensures ValidHart(Execute(cfg, h, i, rdata))
    ensures Execute(cfg, h, i, rdata).id == h.id && Execute(cfg, h, i, rdata).fpu == h.fpu
  {
    hide Extract, And, Pow2, AccessOf, Signed12, Address, Wrap;
  }

  lemma ArithmeticKeepsValid(cfg: Config, h: Hart, i: Instr, rdata: Word)
    requires ValidHart(h) && !UsesCsr(i) && !UsesMemory(i)
    ensures ValidHart(Execute(cfg, h, i, rdata))
    ensures Execute(cfg, h, i, rdata).id == h.id && Execute(cfg, h, i, rdata).fpu == h.fpu
  {
    hide Extract, And, Pow2, AccessOf, Signed12, Address, Wrap, CsrRead, CsrExists;
  }

  lemma ExecuteKeepsValid(cfg: Config, h: Hart, i: Instr, rdata: Word)
    requires ValidHart(h)
    ensures ValidHart(Execute(cfg, h, i, rdata))
    ensures Execute(cfg, h, i, rdata).id == h.id && Execute(cfg, h, i, rdata).fpu == h.fpu
  {
    hide Execute, ValidHart;
    if UsesCsr(i) { CsrKeepsValid(cfg, h, i, rdata); }
    else if UsesMemory(i) { MemoryKeepsValid(cfg, h, i, rdata); }
    else { ArithmeticKeepsValid(cfg, h, i, rdata); }
  }
}
