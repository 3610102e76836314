/** The debug memory: the controller that tracks the harts, and the memory map they see. */
module DebugMemory {
  import opened Words
  import opened Riscv
  import opened DebugRom
  import opened Harts
  import opened AbstractCommands

  datatype Fsm = Idle | Go | Resume | CmdExecuting

  datatype CmdErr =
    | ErrNone | ErrBusy | ErrNotSupported | ErrException | ErrHaltResume | ErrBus | ErrOther

  /** A 64-bit row of the memory. */
  datatype Doubleword = Doubleword(low: Word, high: Word)

  const ZERO_DOUBLEWORD := Doubleword(0, 0)

  // ---- Hart indices ----------------------------------------------------------------------

  /** Hart numbers are truncated to the bits of this range; with one hart a bit is kept. */
  function Aligned(harts: nat): (r: nat)
    ensures r >= harts && r >= 2
  {
    PowerFrom(2, harts)
  }

  /** The range is the least power of two from two on that holds all harts. */
  lemma AlignedIsLeast(harts: nat) returns (k: nat)
    ensures k >= 1 && Aligned(harts) == Pow2(k) && harts <= Pow2(k) && (k > 1 ==> Pow2(k - 1) < harts)
  {
    assert Pow2(1) == 2;
    k := PowerFromIsLeast(1, harts);
  }

  function HartIndex(harts: nat, number: nat): nat {
    number % Aligned(harts)
  }

  /** A per-hart vector read at an index of the aligned range. */
  predicate Bit(v: seq<bool>, i: nat) {
    i < |v| && v[i]
  }

  // ---- What a hart reads -----------------------------------------------------------------

  /** Everything the read side of the memory depends on besides the address. `whereToResume` is
      the resume request of the hart named on the write-data lines during the read. */
  datatype View = View(
    fsm: Fsm, sel: nat, command: Word, progbuf: seq<Word>, data: seq<Word>, whereToResume: bool, held: Doubleword)

  predicate ValidView(v: View) {
    |v.progbuf| == 8 && |v.data| == 2
  }

  predicate BusyView(v: View) { !v.fsm.Idle? }

  /** The command is a bare jump into the program buffer. */
  predicate ShortcutToBuffer(c: Word) {
    CmdType(c) == ACCESS_REGISTER && !Transfer(c) && PostExec(c)
  }

  function WhereToRow(v: View): Doubleword {
    if BusyView(v) then
      if ShortcutToBuffer(v.command) then Doubleword(EncodeJal(0, PROGBUF - WHERETO), 0)
      else Doubleword(EncodeJal(0, ABSTRACT_CMD - WHERETO), 0)
    else if v.whereToResume then Doubleword(EncodeJal(0, RESUME_VECTOR - WHERETO), 0)
    else v.held
  }

  /** Flag byte of the selected hart: bit 0 go, bit 1 resume. */
  function Flag(v: View): nat {
    if v.fsm.Go? then 1 else if v.fsm.Resume? then 2 else 0
  }

  function AtLane(b: Byte, lane: nat): Word
    requires lane < 4
  {
    if lane == 0 then Pack(b, 0, 0, 0) else if lane == 1 then Pack(0, b, 0, 0)
    else if lane == 2 then Pack(0, 0, b, 0) else Pack(0, 0, 0, b)
  }

  /** Only the row of the selected hart's byte is non-zero; addresses and the hart number are
      compared on twelve bits. */
  function FlagRow(v: View, offset: nat): Doubleword
    requires FLAGS <= offset < ROM
  {
    if offset / 8 * 8 - FLAGS == v.sel % 0x1000 / 8 * 8 then
      var b := AtLane(Flag(v), v.sel % 4);
      if v.sel % 8 < 4 then Doubleword(b, 0) else Doubleword(0, b)
    else ZERO_DOUBLEWORD
  }

  /** The row register after a read of the variable part of the memory. */
  function VariableRow(cfg: Config, v: View, offset: nat): Doubleword
    requires ValidView(v)
  {
    if offset == WHERETO then WhereToRow(v)
    else if DATA <= offset < DATA + 8 then Doubleword(v.data[0], v.data[1])
    else if PROGBUF <= offset < DATA then
      var i := (offset - PROGBUF) / 8; Doubleword(v.progbuf[2 * i], v.progbuf[2 * i + 1])
    else if ABSTRACT_CMD <= offset < PROGBUF then
      var i := (offset - ABSTRACT_CMD) / 8;
      var w := CommandWords(Two(cfg), v.command);
      Doubleword(w[2 * i], w[2 * i + 1])
    else if FLAGS <= offset < ROM then FlagRow(v, offset)
    else v.held
  }

  function RomRow(cfg: Config, offset: nat): Doubleword {
    Doubleword(ImageWord(Two(cfg), offset / 8 * 8), ImageWord(Two(cfg), offset / 8 * 8 + 4))
  }

  /** The word a hart gets from a read: row from the ROM or the variable part, half by address bit 2. */
  function ReadWord(cfg: Config, v: View, offset: nat): Word
    requires ValidView(v)
  {
    var row := if offset >= ROM then RomRow(cfg, offset) else VariableRow(cfg, v, offset);
    if offset / 4 % 2 == 0 then row.low else row.high
  }

  lemma ReadRom(cfg: Config, v: View, l: Loc)
    requires ValidView(v) && Exists(Two(cfg), l)
    ensures ReadWord(cfg, v, AddressOf(Two(cfg), l)) == ImageWord(Two(cfg), AddressOf(Two(cfg), l))
  {
    hide DebugRom.Row, IndexOf;
    RowWord(Two(cfg), AddressOf(Two(cfg), l));
  }

  lemma RowWord(two: bool, offset: nat)
    requires offset % 4 == 0
    ensures offset == offset / 8 * 8 + offset / 4 % 2 * 4
  {
  }

  /** Slot i of the generated program sits at its address. */
  lemma ReadSlot(cfg: Config, v: View, i: nat)
    requires ValidView(v) && i < 10
    ensures ReadWord(cfg, v, ABSTRACT_CMD + 4 * i) == CommandWords(Two(cfg), v.command)[i]
  {
    hide CommandWords;
    assert (ABSTRACT_CMD + 4 * i - ABSTRACT_CMD) / 8 == i / 2;
    assert (ABSTRACT_CMD + 4 * i) / 4 % 2 == i % 2;
  }

  /** Through row compare, row select and byte select, a hart that polls its flag byte sees the
      controller's flag exactly when it is the selected hart, and zero otherwise. */
  lemma FlagByte(cfg: Config, v: View, hart: nat)
    requires ValidView(v) && hart < 1024 && v.sel < 1024
    ensures Lane(ReadWord(cfg, v, FLAGS + hart), (FLAGS + hart) % 4) == if hart == v.sel then Flag(v) else 0
  {
    hide Lane, Pack, AtLane;
    FlagPlace(hart);
    SamePlace(hart, v.sel);
    ZeroLane(hart % 4);
    AtLaneOnly(Flag(v), v.sel % 4, hart % 4);
  }

  /** Row, half and lane of a hart's flag byte. */
  lemma FlagPlace(hart: nat)
    requires hart < 1024
    ensures (FLAGS + hart) / 8 * 8 - FLAGS == hart / 8 * 8
    ensures (FLAGS + hart) / 4 % 2 == hart / 4 % 2 && (FLAGS + hart) % 4 == hart % 4
  {
    FlagRowOf(hart);
    FlagHalf(hart);
  }

  lemma FlagRowOf(hart: nat)
    ensures (FLAGS + hart) / 8 == 0x80 + hart / 8
  {
    SplitAt(0x80 + hart / 8, hart % 8, 8);
  }

  lemma FlagHalf(hart: nat)
    ensures (FLAGS + hart) / 4 == 0x100 + hart / 4 && (FLAGS + hart) % 4 == hart % 4
  {
    SplitAt(0x100 + hart / 4, hart % 4, 4);
  }

  lemma SamePlace(a: nat, b: nat)
    requires a < 1024 && b < 1024
    ensures a == b <==> a / 8 * 8 == b % 0x1000 / 8 * 8 && a / 4 % 2 == (if b % 8 < 4 then 0 else 1) && a % 4 == b % 4
  {
    assert b % 0x1000 == b;
    Place(a);
    Place(b);
    assert a / 8 * 8 == b / 8 * 8 && a / 4 % 2 == b / 4 % 2 && a % 4 == b % 4 ==> a == b;
  }

  lemma Place(a: nat)
    ensures a == a / 8 * 8 + a / 4 % 2 * 4 + a % 4
    ensures a / 4 % 2 == if a % 8 < 4 then 0 else 1
  {
    assert a / 8 == a / 4 / 2;
  }

  lemma AtLaneOnly(b: Byte, lane: nat, k: nat)
    requires lane < 4 && k < 4
    ensures Lane(AtLane(b, lane), k) == if k == lane then b else 0
  {
    hide Lane, Pack;
    LanesOfPack(b, 0, 0, 0);
    LanesOfPack(0, b, 0, 0);
    LanesOfPack(0, 0, b, 0);
    LanesOfPack(0, 0, 0, b);
  }

  lemma ZeroLane(k: nat)
    requires k < 4
    ensures Lane(0, k) == 0
  {
  }

  /** The flag window holds 1024 bytes. The byte that hart 1024 would poll is the first byte of
      the ROM, whose bit 0 is set: such a hart would take the going path unasked. */
  lemma FlagWindowEndsAt1024(cfg: Config, v: View)
    requires ValidView(v)
    ensures And(Lane(ReadWord(cfg, v, FLAGS + 1024), (FLAGS + 1024) % 4), 1) == 1
  {
    hide ReadWord, And, Lane;
    FirstRomWord(cfg, v);
    FirstRomByte();
  }

  lemma FirstRomWord(cfg: Config, v: View)
    requires ValidView(v)
    ensures ReadWord(cfg, v, FLAGS + 1024) == 0x00c0_006f
  {
    assert ImageWord(Two(cfg), ROM) == 0x00c0_006f;
  }

  lemma FirstRomByte()
    ensures Lane(0x00c0_006f, (FLAGS + 1024) % 4) == 0x6f && And(0x6f, 1) == 1
  {
    assert And(0x6f, 1) == 1 + 2 * And(0x37, 0);
  }

  // ---- The controller --------------------------------------------------------------------

  /** Registers of the debug memory. */
  datatype Mem = Mem(
    fsm: Fsm, halted: seq<bool>, resuming: seq<bool>,
    held: Doubleword, fromRom: bool, romOffset: nat, upperHalf: bool)

  predicate ValidMem(cfg: Config, m: Mem) {
    |m.halted| == cfg.harts && |m.resuming| == cfg.harts
  }

  /** Inputs of one cycle. `sel` is the truncated hart selection; a bus request carries the hart
      number that is on the write-data lines. */
  datatype MemIn = MemIn(
    sel: nat, haltreq: seq<bool>, resumereq: seq<bool>, clearResumeAck: bool,
    cmdValid: bool, command: Word, progbuf: seq<Word>, data: seq<Word>,
    access: Access, wdataHart: nat)

  predicate ValidMemIn(i: MemIn) {
    |i.progbuf| == 8 && |i.data| == 2
    && (i.access.ReadAt? ==> i.access.offset < 0x1000)
    && (i.access.WriteAt? ==> |i.access.be| == 4)
  }

  datatype MemOut = MemOut(busy: bool, error: CmdErr, dataValid: bool, data: seq<Word>)

  predicate Writes(i: MemIn, offset: nat) {
    i.access.WriteAt? && i.access.offset == offset
  }

  /** Hart `h` reports itself through the register at `offset` in this cycle. */
  predicate Reports(i: MemIn, offset: nat, h: nat) {
    Writes(i, offset) && i.wdataHart == h
  }

  predicate WantsResume(m: Mem, i: MemIn) {
    Bit(i.resumereq, i.sel) && !Bit(m.resuming, i.sel) && !Bit(i.haltreq, i.sel) && Bit(m.halted, i.sel)
  }

  predicate WantsGo(m: Mem, i: MemIn) {
    i.cmdValid && Bit(m.halted, i.sel) && !Unsupported(i.command)
  }

  function NextFsm(m: Mem, i: MemIn): Fsm {
    match m.fsm
    case Idle => if WantsResume(m, i) then Resume else if WantsGo(m, i) then Go else Idle
    case Go => if Writes(i, GOING) then CmdExecuting else Go
    case Resume => if Bit(m.resuming, i.sel) then Idle else Resume
    case CmdExecuting => if Reports(i, HALTED, i.sel) then Idle else CmdExecuting
  }

  function NextHalted(m: Mem, i: MemIn): seq<bool> {
    seq(|m.halted|, h requires 0 <= h < |m.halted| =>
      if Reports(i, HALTED, h) then true else if Reports(i, RESUMING, h) then false else m.halted[h])
  }

  function NextResuming(m: Mem, i: MemIn): seq<bool> {
    seq(|m.resuming|, h requires 0 <= h < |m.resuming| =>
      if Reports(i, RESUMING, h) then true else if i.clearResumeAck && h == i.sel then false else m.resuming[h])
  }

  function ViewOf(m: Mem, i: MemIn): View {
    View(m.fsm, i.sel, i.command, i.progbuf, i.data, Bit(i.resumereq, i.wdataHart), m.held)
  }

  function AccessOffset(a: Access): nat {
    match a case ReadAt(o) => o case WriteAt(o, _, _) => o case NoAccess => 0
  }

  function NextMem(cfg: Config, m: Mem, i: MemIn): Mem
    requires ValidMem(cfg, m) && ValidMemIn(i)
  {
    var offset := AccessOffset(i.access);
    Mem(NextFsm(m, i), NextHalted(m, i), NextResuming(m, i),
        if i.access.ReadAt? then VariableRow(cfg, ViewOf(m, i), offset) else m.held,
        offset >= ROM,
        if i.access.NoAccess? then m.romOffset else offset,
        offset / 4 % 2 == 1)
  }

  /** Error report of a cycle: an exception beats an unsupported command beats a hart that is not halted. */
  function ErrorOf(m: Mem, i: MemIn): CmdErr {
    if Writes(i, EXCEPTION) then ErrException
    else if i.cmdValid && Unsupported(i.command) then ErrNotSupported
    else if i.cmdValid && m.fsm.Idle? && !Bit(m.halted, i.sel) then ErrHaltResume
    else ErrNone
  }

  predicate WritesData(i: MemIn) {
    i.access.WriteAt? && DATA <= i.access.offset < DATA + 8
  }

  /** `old_` with the enabled byte lanes of `new_`. */
  function Merge(old_: Word, new_: Word, be: seq<bool>): Word
    requires |be| == 4
  {
    Pack(if be[0] then Lane(new_, 0) else Lane(old_, 0), if be[1] then Lane(new_, 1) else Lane(old_, 1),
         if be[2] then Lane(new_, 2) else Lane(old_, 2), if be[3] then Lane(new_, 3) else Lane(old_, 3))
  }

  /** On the 32-bit bus a store anywhere in the data window lands in the first data register. */
  function DataOut(i: MemIn): seq<Word>
    requires ValidMemIn(i)
  {
    if WritesData(i) then i.data[0 := Merge(i.data[0], i.access.wdata, i.access.be)] else i.data
  }

  function OutputOf(m: Mem, i: MemIn): MemOut
    requires ValidMemIn(i)
  {
    MemOut(!m.fsm.Idle?, ErrorOf(m, i), WritesData(i), DataOut(i))
  }

  /** The registered read data: ROM row or held row, half selected by the registered address bit. */
  function ReadData(cfg: Config, m: Mem): Word {
    var row := if m.fromRom then RomRow(cfg, m.romOffset) else m.held;
    if m.upperHalf then row.high else row.low
  }

  /** A read is answered in the next cycle with the word the view had when it was requested. */
  lemma ReadAnswered(cfg: Config, m: Mem, i: MemIn)
    requires ValidMem(cfg, m) && ValidMemIn(i) && i.access.ReadAt?
    ensures ReadData(cfg, NextMem(cfg, m, i)) == ReadWord(cfg, ViewOf(m, i), i.access.offset)
  {
    hide RomRow, VariableRow, NextFsm, NextHalted, NextResuming;
  }

  /** The debug memory as a clocked object. */
  class DmMem {
    const cfg: Config
    var state: Fsm
    var halted: seq<bool>
    var resuming: seq<bool>
    var held: Doubleword
    var fromRom: bool
    var romOffset: nat
    var upperHalf: bool

    ghost predicate Valid()
      reads this
    {
      |halted| == cfg.harts && |resuming| == cfg.harts
    }

    function State(): Mem
      reads this
    {
      Mem(state, halted, resuming, held, fromRom, romOffset, upperHalf)
    }

    constructor (cfg: Config)
      ensures Valid() && this.cfg == cfg
      ensures State() == ResetMem(cfg)
    {
      this.cfg := cfg;
      state := Idle;
      halted, resuming := seq(cfg.harts, _ => false), seq(cfg.harts, _ => false);
      held := ZERO_DOUBLEWORD;
      fromRom, romOffset, upperHalf := false, 0, false;
    }

    /** The read/write logic of a cycle: next hart vectors, row register and bus events. */
    method ReadWriteLogic(i: MemIn) returns (haltedD: seq<bool>, resumingD: seq<bool>, heldD: Doubleword,
                                             going: bool, haltedNow: bool, exception: bool,
                                             dataValid: bool, data: seq<Word>)
      requires Valid() && ValidMemIn(i)
      ensures haltedD == NextHalted(State(), i) && resumingD == NextResuming(State(), i)
      ensures heldD == NextMem(cfg, State(), i).held
      ensures going == Writes(i, GOING) && exception == Writes(i, EXCEPTION)
      ensures haltedNow == Reports(i, HALTED, i.sel)
      ensures dataValid == WritesData(i) && data == DataOut(i)
    {
      hide VariableRow, Merge;
      haltedD, resumingD, heldD := halted, resuming, held;
      going, haltedNow, exception := false, false, false;
      dataValid, data := false, i.data;
      if i.clearResumeAck && i.sel < |resumingD| {
        resumingD := resumingD[i.sel := false];
      }
      match i.access {
        case WriteAt(offset, wdata, be) =>
          if offset == HALTED {
            haltedNow := i.wdataHart == i.sel;
            if i.wdataHart < |haltedD| { haltedD := haltedD[i.wdataHart := true]; }
          } else if offset == GOING {
            going := true;
          } else if offset == RESUMING {
            if i.wdataHart < |haltedD| {
              haltedD := haltedD[i.wdataHart := false];
              resumingD := resumingD[i.wdataHart := true];
            }
          } else if offset == EXCEPTION {
            exception := true;
          } else if DATA <= offset < DATA + 8 {
            dataValid := true;
            var merged := WriteLanes(data[0], wdata, be);
            data := data[0 := merged];
          }
        case ReadAt(offset) => heldD := VariableRow(cfg, ViewOf(State(), i), offset);
        case NoAccess =>
      }
    }

    /** The hart control state machine of a cycle. */
    method HartControl(i: MemIn, going: bool, haltedNow: bool, exception: bool) returns (stateD: Fsm, error: CmdErr)
      requires Valid() && ValidMemIn(i)
      requires going == Writes(i, GOING) && exception == Writes(i, EXCEPTION)
      requires haltedNow == Reports(i, HALTED, i.sel)
      ensures stateD == NextFsm(State(), i) && error == ErrorOf(State(), i)
    {
      hide Unsupported;
      error, stateD := ErrNone, state;
      match state {
        case Idle =>
          if i.cmdValid && Bit(halted, i.sel) && !Unsupported(i.command) {
            stateD := Go;
          } else if i.cmdValid {
            error := ErrHaltResume;
          }
          if Bit(i.resumereq, i.sel) && !Bit(resuming, i.sel) && !Bit(i.haltreq, i.sel) && Bit(halted, i.sel) {
            stateD := Resume;
          }
        case Go => if going { stateD := CmdExecuting; }
        case Resume => if Bit(resuming, i.sel) { stateD := Idle; }
        case CmdExecuting => if haltedNow { stateD := Idle; }
      }
      if Unsupported(i.command) && i.cmdValid { error := ErrNotSupported; }
      if exception { error := ErrException; }
    }

    /** One rising clock edge. */
    method Tick(i: MemIn) returns (out: MemOut)
      requires Valid() && ValidMemIn(i)
      modifies this
      ensures Valid()
      ensures State() == NextMem(cfg, old(State()), i)
      ensures out == OutputOf(old(State()), i)
    {
      hide VariableRow, Unsupported, ErrorOf, NextFsm, NextHalted, NextResuming;
      var haltedD, resumingD, heldD, going, haltedNow, exception, dataValid, data := ReadWriteLogic(i);
      var stateD, error := HartControl(i, going, haltedNow, exception);
      NextVectorLengths(State(), i);
      out := MemOut(state != Idle, error, dataValid, data);
      fromRom := AccessOffset(i.access) >= ROM;
      upperHalf := AccessOffset(i.access) / 4 % 2 == 1;
      if !i.access.NoAccess? { romOffset := AccessOffset(i.access); }
      state, halted, resuming, held := stateD, haltedD, resumingD, heldD;
    }
  }

  lemma NextVectorLengths(m: Mem, i: MemIn)
    ensures |NextHalted(m, i)| == |m.halted| && |NextResuming(m, i)| == |m.resuming|
  {
  }

  function ResetMem(cfg: Config): Mem {
    Mem(Idle, seq(cfg.harts, _ => false), seq(cfg.harts, _ => false), ZERO_DOUBLEWORD, false, 0, false)
  }

  /** The byte-enable loop of a store to the data window. */
  method WriteLanes(old_: Word, wdata: Word, be: seq<bool>) returns (r: Word)
    requires |be| == 4
    ensures r == Merge(old_, wdata, be)
  {
    var lanes := [Lane(old_, 0), Lane(old_, 1), Lane(old_, 2), Lane(old_, 3)];
    for i := 0 to 4
      invariant |lanes| == 4
      invariant forall k :: 0 <= k < 4 ==>
        lanes[k] == if k < i && be[k] then Lane(wdata, k) else Lane(old_, k)
    {
      if be[i] { lanes := lanes[i := Lane(wdata, i)]; }
    }
    r := Pack(lanes[0], lanes[1], lanes[2], lanes[3]);
  }
}
