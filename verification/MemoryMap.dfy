/** The debug memory by addresses: what a hart reads and what its stores do. */
module MemoryMap {
  import opened Words
  import opened Riscv
  import opened DebugRom
  import opened Harts
  import opened AbstractCommands
  import opened DebugMemory
  import opened CommandFormat

  /** At 0x300 there is a jump: while a command is under way to its program at 0x338, or straight into
      the program buffer at 0x360 if it only asks for that; otherwise, for a hart that is asked to
      resume, to the resume vector at 0x804. */
  lemma JumpWord(cfg: Config, v: View, f: Fields)
    requires ValidView(v) && InRange(f) && v.command == Composed(f)
    ensures var target := if f.cmdtype == 0 && !f.transfer && f.exec then 0x360 else 0x338;
      v.fsm != Idle ==> Decode(ReadWord(cfg, v, 0x300)) == Jal(0, target - 0x300)
    ensures v.fsm == Idle && v.whereToResume ==> Decode(ReadWord(cfg, v, 0x300)) == Jal(0, 0x804 - 0x300)
  {
    hide Decode, EncodeJal, Composed, CmdType, Transfer, PostExec;
    FieldsFound(f);
    DecodeEncodedJal(0, 0x360 - 0x300);
    DecodeEncodedJal(0, 0x338 - 0x300);
    DecodeEncodedJal(0, 0x804 - 0x300);
  }

  /** The generated program stands at 0x338, the program buffer at 0x360, the data registers at 0x380. */
  lemma VariableWords(cfg: Config, v: View, i: nat)
    requires ValidView(v)
    ensures i < 10 ==> Decode(ReadWord(cfg, v, 0x338 + 4 * i)) == Executed(Two(cfg), v.command)[i]
    ensures i < 8 ==> ReadWord(cfg, v, 0x360 + 4 * i) == v.progbuf[i]
    ensures i < 2 ==> ReadWord(cfg, v, 0x380 + 4 * i) == v.data[i]
  {
    hide Decode;
    if i < 10 { ReadSlot(cfg, v, i); }
    if i < 8 { BufferWord(cfg, v, i); }
    if i < 2 { DataWord(cfg, v, i); }
  }

  lemma BufferWord(cfg: Config, v: View, i: nat)
    requires ValidView(v) && i < 8
    ensures ReadWord(cfg, v, 0x360 + 4 * i) == v.progbuf[i]
  {
    hide CommandWords;
    assert (0x360 + 4 * i - 0x360) / 8 == i / 2 && (0x360 + 4 * i) / 4 % 2 == i % 2;
  }

  lemma DataWord(cfg: Config, v: View, i: nat)
    requires ValidView(v) && i < 2
    ensures ReadWord(cfg, v, 0x380 + 4 * i) == v.data[i]
  {
    hide CommandWords;
    assert (0x380 + 4 * i) / 4 % 2 == i;
  }

  /** Stores by address: at 0x100 the hart becomes halted; at 0x108 it ceases to be and shows its
      acknowledgement; stores to 0x380 to 0x387 merge the enabled bytes into the first data register;
      nothing else of this changes by a store. */
  lemma Stores(cfg: Config, m: Mem, i: MemIn, h: nat)
    requires ValidMem(cfg, m) && ValidMemIn(i) && i.access.WriteAt? && h < cfg.harts && !i.clearResumeAck
    ensures |NextMem(cfg, m, i).halted| == cfg.harts && |NextMem(cfg, m, i).resuming| == cfg.harts
    ensures var n, own := NextMem(cfg, m, i), i.wdataHart == h;
      && n.halted[h] == (if own && i.access.offset == 0x100 then true else if own && i.access.offset == 0x108 then false else m.halted[h])
      && n.resuming[h] == (m.resuming[h] || (own && i.access.offset == 0x108))
      && (OutputOf(m, i).dataValid <==> 0x380 <= i.access.offset < 0x388)
      && OutputOf(m, i).data[1] == i.data[1]
  {
    hide Merge, ErrorOf;
  }
}
