/** A hart as an object: each instruction of the debug memory overwrites registers in place. */
module HartCore {
  import opened Words
  import opened Riscv
  import opened DebugRom
  import opened Harts
  import opened DebugMemory
  import opened ParkLoop

  class Core {
    const cfg: Config
    const id: Word
    const fpu: bool
    var gpr: seq<Word>
    var fpr: seq<Word>
    var dscratch0: Word
    var dscratch1: Word
    var csr: map<nat, Word>
    var pc: Word
    var debug: bool

    function State(): Hart
      reads this
    {
      Hart(id, gpr, fpu, fpr, dscratch0, dscratch1, csr, pc, debug)
    }

    ghost predicate Valid()
      reads this
    {
      ValidHart(State())
    }

    constructor (cfg: Config, h: Hart)
      requires ValidHart(h)
      ensures Valid() && State() == h && this.cfg == cfg
    {
      this.cfg := cfg;
      id, fpu, gpr, fpr := h.id, h.fpu, h.gpr, h.fpr;
      dscratch0, dscratch1, csr, pc, debug := h.dscratch0, h.dscratch1, h.csr, h.pc, h.debug;
    }

    method SetGpr(rd: Reg, x: Word)
      requires Valid()
      modifies this`gpr
      ensures Valid() && State() == SetReg(old(State()), rd, x)
    {
      if rd != 0 { gpr := gpr[rd := x]; }
    }

    method Take()
      requires Valid()
      modifies this`pc
      ensures Valid() && State() == Trap(cfg, old(State()))
    {
      pc := Wrap(cfg.base + EXCEPTION_VECTOR);
    }

    /** Loads and stores: the access first, then the register it fills. */
    method Transfer(i: Instr, access: Access, rdata: Word)
      requires Valid() && access == AccessOf(cfg, State(), i)
      requires i.Load? || i.Store? || i.FLoad? || i.FStore?
      modifies this
      ensures Valid() && State() == Execute(cfg, old(State()), i, rdata)
    {
      hide Extract, Address, AccessOf;
      if access.NoAccess? {
        Take();
        return;
      }
      match i {
        case Load(size, rd, rs1, imm) =>
          SetGpr(rd, Extract(size, rdata, Address(State(), rs1, imm) % 4));
        case FLoad(rd, _, _) => fpr := fpr[rd := rdata];
        case _ =>
      }
      pc := Wrap(pc + 4);
    }

    method Arithmetic(i: Instr, ghost rdata: Word)
      requires Valid() && (i.Addi? || i.Andi? || i.Add? || i.Fence?)
      modifies this
      ensures Valid() && State() == Execute(cfg, old(State()), i, rdata)
    {
      hide And, Signed12, AccessOf, Extract, CsrRead, CsrExists, Pow2, Wrap, Address, SetReg;
      match i {
        case Addi(rd, rs1, imm) => SetGpr(rd, Wrap(gpr[rs1] + Signed12(imm)));
        case Andi(rd, rs1, imm) => SetGpr(rd, Wrap(And(gpr[rs1], Signed12(imm))));
        case Add(rd, rs1, rs2) => SetGpr(rd, Wrap(gpr[rs1] as int + gpr[rs2] as int));
        case Fence =>
      }
      pc := Wrap(pc + 4);
    }

    /** Shifts, and the pc-relative base. */
    method Shift(i: Instr, ghost rdata: Word)
      requires Valid() && (i.Slli? || i.Srli? || i.Auipc?)
      modifies this
      ensures Valid() && State() == Execute(cfg, old(State()), i, rdata)
    {
      hide And, Signed12, AccessOf, Extract, CsrRead, CsrExists, Pow2, Wrap, Address, SetReg;
      match i {
        case Slli(rd, rs1, shamt) => SetGpr(rd, Wrap(gpr[rs1] * Pow2(shamt)));
        case Srli(rd, rs1, shamt) => SetGpr(rd, Wrap(gpr[rs1] / Pow2(shamt)));
        case Auipc(rd, imm) => SetGpr(rd, Wrap(pc + imm * 0x1000));
      }
      pc := Wrap(pc + 4);
    }

    /** CSR accesses read the old value before the write, and trap before any effect. */
    method CsrTransfer(i: Instr, ghost rdata: Word)
      requires Valid() && (i.Csrrw? || i.Csrr?)
      modifies this
      ensures Valid() && State() == Execute(cfg, old(State()), i, rdata)
    {
      hide And, Signed12, AccessOf, Extract, Pow2, Wrap, Address;
      var a, rd := i.csr, i.rd;
      if !CsrExists(State(), a) || (i.Csrrw? && ReadOnlyCsr(a)) {
        Take();
        return;
      }
      var was := CsrRead(State(), a);
      if i.Csrrw? {
        var x := gpr[i.rs1];
        if a == CSR_DSCRATCH0 { dscratch0 := x; }
        else if a == CSR_DSCRATCH1 { dscratch1 := x; }
        else { csr := csr[a := x]; }
      }
      SetGpr(rd, was);
      pc := Wrap(pc + 4);
    }

    method Control(i: Instr, ghost rdata: Word)
      requires Valid() && (i.Jal? || i.Bne? || i.Ebreak? || i.Dret? || i.Illegal?)
      modifies this
      ensures Valid() && State() == Execute(cfg, old(State()), i, rdata)
    {
      hide And, Signed12, AccessOf, Extract, CsrRead, CsrExists, Pow2, Wrap, Address, SetReg;
      match i {
        case Jal(rd, offset) =>
          SetGpr(rd, Wrap(pc + 4));
          pc := Wrap(pc + offset);
        case Bne(rs1, rs2, offset) => pc := if gpr[rs1] != gpr[rs2] then Wrap(pc + offset) else Wrap(pc + 4);
        case Ebreak => pc := Wrap(cfg.base + ROM);
        case Dret => pc, debug := csr[CSR_DPC], false;
        case Illegal => Take();
      }
    }

    /** One instruction: fetch, access, effect. */
    method Step(v: View) returns (access: Access)
      requires Valid() && ValidView(v)
      modifies this
      ensures Valid() && State() == StepHart(cfg, v, old(State()))
      ensures access == RequestOf(cfg, v, old(State()))
    {
      hide Execute, AccessOf, Instruction, ReadWord, ValidHart;
      var i := Instruction(cfg, v, State());
      access := AccessOf(cfg, State(), i);
      ghost var rdata := LoadData(cfg, v, access);
      if i.Load? || i.Store? || i.FLoad? || i.FStore? {
        Transfer(i, access, LoadData(cfg, v, access));
      } else if i.Csrrw? || i.Csrr? {
        CsrTransfer(i, rdata);
      } else if i.Jal? || i.Bne? || i.Ebreak? || i.Dret? || i.Illegal? {
        Control(i, rdata);
      } else if i.Slli? || i.Srli? || i.Auipc? {
        Shift(i, rdata);
      } else {
        Arithmetic(i, rdata);
      }
    }
  }
}
