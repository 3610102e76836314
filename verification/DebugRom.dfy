/** The debug ROM: its assembly listing, the word images built from it, and the proof that
    a hart fetching the images executes the listing. */
module DebugRom {
  import opened Words
  import opened Riscv

  const S0: Reg := 8
  const A0: Reg := 10

  const CSR_DPC: nat := 0x7b1
  const CSR_DSCRATCH0: nat := 0x7b2
  const CSR_DSCRATCH1: nat := 0x7b3
  const CSR_MHARTID: nat := 0xf14

  // Offsets inside the 4 KiB debug memory
  const HALTED: nat := 0x100
  const GOING: nat := 0x104
  const RESUMING: nat := 0x108
  const EXCEPTION: nat := 0x10c
  const WHERETO: nat := 0x300
  const ABSTRACT_CMD: nat := 0x338
  const PROGBUF: nat := 0x360
  const DATA: nat := 0x380
  const FLAGS: nat := 0x400
  const ROM: nat := 0x800
  const RESUME_VECTOR: nat := 0x804
  const EXCEPTION_VECTOR: nat := 0x808

  /** Program points of the listing, in ROM order. The ones that save, rebuild or add the
      base register exist only in the variant with a second scratch register. */
  datatype Loc =
    | EntryVector | ResumeVector | ExceptionVector
    // _entry
    | EntryFence | SaveS0 | SaveA0 | BaseAuipc | BaseSrli | BaseSlli
    // entry_loop
    | LoopHartId | StoreHalted | AddGo | LoadGo | TestGo | BranchGo
    | ResumeHartId | AddResume | LoadResume | TestResume | BranchResume | LoopBack
    // _exception
    | ExcAuipc | ExcSrli | ExcSlli | StoreException | ExcRestoreA0 | ExcRestoreS0 | ExcEbreak
    // going
    | StoreGoing | GoRestoreA0 | GoRestoreS0 | GoJump
    // _resume
    | ExitHartId | StoreResuming | ExitRestoreA0 | ExitRestoreS0 | ExitDret
    // not a program point
    | Nowhere

  /** Is the point part of the variant with (`two`) or without a second scratch register? */
  predicate Exists(two: bool, l: Loc) {
    match l
    case Nowhere => false
    case SaveA0 | BaseAuipc | BaseSrli | BaseSlli | AddGo | AddResume => two
    case ExcAuipc | ExcSrli | ExcSlli | ExcRestoreA0 | GoRestoreA0 | ExitRestoreA0 => two
    case _ => true
  }

  /** The base register of the ROM's own stores. */
  function Base(two: bool): Reg {
    if two then A0 else 0
  }

  /** The instruction that the assembly listing has at a program point. */
  function Listing(two: bool, l: Loc): Instr
    requires Exists(two, l)
  {
    match l
    case EntryVector => Jal(0, AddressOf(two, EntryFence) - AddressOf(two, l))
    case ResumeVector => Jal(0, AddressOf(two, ExitHartId) - AddressOf(two, l))
    case ExceptionVector =>
      Jal(0, AddressOf(two, if two then ExcAuipc else StoreException) - AddressOf(two, l))
    case EntryFence => Fence
    case SaveS0 => Csrrw(0, CSR_DSCRATCH0, S0)
    case SaveA0 => Csrrw(0, CSR_DSCRATCH1, A0)
    case BaseAuipc | ExcAuipc => Auipc(A0, 0)
    case BaseSrli | ExcSrli => Srli(A0, A0, 12)
    case BaseSlli | ExcSlli => Slli(A0, A0, 12)
    case LoopHartId | ResumeHartId | ExitHartId => Csrr(S0, CSR_MHARTID)
    case StoreHalted => Store(2, S0, Base(two), HALTED)
    case AddGo | AddResume => Add(S0, S0, A0)
    case LoadGo | LoadResume => Load(4, S0, S0, FLAGS)
    case TestGo => Andi(S0, S0, 1)
    case BranchGo => Bne(S0, 0, AddressOf(two, StoreGoing) - AddressOf(two, l))
    case TestResume => Andi(S0, S0, 2)
    case BranchResume => Bne(S0, 0, AddressOf(two, ResumeVector) - AddressOf(two, l))
    case LoopBack => Jal(0, AddressOf(two, LoopHartId) - AddressOf(two, l))
    case StoreException => Store(2, 0, Base(two), EXCEPTION)
    case StoreGoing => Store(2, 0, Base(two), GOING)
    case StoreResuming => Store(2, S0, Base(two), RESUMING)
    case ExcRestoreA0 | GoRestoreA0 | ExitRestoreA0 => Csrr(A0, CSR_DSCRATCH1)
    case ExcRestoreS0 | GoRestoreS0 | ExitRestoreS0 => Csrr(S0, CSR_DSCRATCH0)
    case ExcEbreak => Ebreak
    case GoJump => Jal(0, WHERETO - AddressOf(two, l))
    case ExitDret => Dret
  }

  /** The order of the listing: each point follows its predecessor by one word. */
  function PointTwo(i: nat): Loc {
    match i
    case 0 => EntryVector case 1 => ResumeVector case 2 => ExceptionVector
    case 3 => EntryFence case 4 => SaveS0 case 5 => SaveA0
    case 6 => BaseAuipc case 7 => BaseSrli case 8 => BaseSlli
    case 9 => LoopHartId case 10 => StoreHalted case 11 => AddGo
    case 12 => LoadGo case 13 => TestGo case 14 => BranchGo
    case 15 => ResumeHartId case 16 => AddResume case 17 => LoadResume
    case 18 => TestResume case 19 => BranchResume case 20 => LoopBack
    case 21 => ExcAuipc case 22 => ExcSrli case 23 => ExcSlli
    case 24 => StoreException case 25 => ExcRestoreA0 case 26 => ExcRestoreS0
    case 27 => ExcEbreak case 28 => StoreGoing case 29 => GoRestoreA0
    case 30 => GoRestoreS0 case 31 => GoJump case 32 => ExitHartId
    case 33 => StoreResuming case 34 => ExitRestoreA0 case 35 => ExitRestoreS0
    case 36 => ExitDret
    case _ => Nowhere
  }

  function PointOne(i: nat): Loc {
    match i
    case 0 => EntryVector case 1 => ResumeVector case 2 => ExceptionVector
    case 3 => EntryFence case 4 => SaveS0 case 5 => LoopHartId
    case 6 => StoreHalted case 7 => LoadGo case 8 => TestGo
    case 9 => BranchGo case 10 => ResumeHartId case 11 => LoadResume
    case 12 => TestResume case 13 => BranchResume case 14 => LoopBack
    case 15 => StoreException case 16 => ExcRestoreS0 case 17 => ExcEbreak
    case 18 => StoreGoing case 19 => GoRestoreS0 case 20 => GoJump
    case 21 => ExitHartId case 22 => StoreResuming case 23 => ExitRestoreS0
    case 24 => ExitDret
    case _ => Nowhere
  }

  /** Position of a point in the listing. */
  function IndexOf(two: bool, l: Loc): nat {
    match l
    case EntryVector => 0 case ResumeVector => 1 case ExceptionVector => 2
    case EntryFence => 3 case SaveS0 => 4 case SaveA0 => 5
    case BaseAuipc => 6 case BaseSrli => 7 case BaseSlli => 8
    case LoopHartId => if two then 9 else 5
    case StoreHalted => if two then 10 else 6
    case AddGo => 11
    case LoadGo => if two then 12 else 7
    case TestGo => if two then 13 else 8
    case BranchGo => if two then 14 else 9
    case ResumeHartId => if two then 15 else 10
    case AddResume => 16
    case LoadResume => if two then 17 else 11
    case TestResume => if two then 18 else 12
    case BranchResume => if two then 19 else 13
    case LoopBack => if two then 20 else 14
    case ExcAuipc => 21 case ExcSrli => 22 case ExcSlli => 23
    case StoreException => if two then 24 else 15
    case ExcRestoreA0 => 25
    case ExcRestoreS0 => if two then 26 else 16
    case ExcEbreak => if two then 27 else 17
    case StoreGoing => if two then 28 else 18
    case GoRestoreA0 => 29
    case GoRestoreS0 => if two then 30 else 19
    case GoJump => if two then 31 else 20
    case ExitHartId => if two then 32 else 21
    case StoreResuming => if two then 33 else 22
    case ExitRestoreA0 => 34
    case ExitRestoreS0 => if two then 35 else 23
    case ExitDret => if two then 36 else 24
    case Nowhere => 40
  }

  function AddressOf(two: bool, l: Loc): nat {
    ROM + 4 * IndexOf(two, l)
  }

  /** The program point at an offset of the debug memory, if there is one. */
  function LocAt(two: bool, offset: nat): Loc {
    if offset < ROM || offset % 4 != 0 then Nowhere
    else if two then PointTwo((offset - ROM) / 4)
    else PointOne((offset - ROM) / 4)
  }

  lemma LocAtAddressOf(two: bool, l: Loc)
    requires Exists(two, l)
    ensures LocAt(two, AddressOf(two, l)) == l
  {
    assert (AddressOf(two, l) - ROM) / 4 == IndexOf(two, l);
    if two { PointTwoIndexOf(l); } else { PointOneIndexOf(l); }
  }

  lemma PointTwoIndexOf(l: Loc)
    requires Exists(true, l)
    ensures PointTwo(IndexOf(true, l)) == l
  {
    hide PointTwo;
    if IndexOf(true, l) < 18 { PointTwoFront(l); } else { PointTwoBack(l); }
  }

  lemma PointTwoFront(l: Loc)
    requires Exists(true, l) && IndexOf(true, l) < 18
    ensures PointTwo(IndexOf(true, l)) == l
  {
  }

  lemma PointTwoBack(l: Loc)
    requires Exists(true, l) && IndexOf(true, l) >= 18
    ensures PointTwo(IndexOf(true, l)) == l
  {
  }

  lemma PointOneIndexOf(l: Loc)
    requires Exists(false, l)
    ensures PointOne(IndexOf(false, l)) == l
  {
  }

  lemma AddressOfLocAt(two: bool, offset: nat)
    requires LocAt(two, offset) != Nowhere
    ensures Exists(two, LocAt(two, offset)) && AddressOf(two, LocAt(two, offset)) == offset
  {
    var i := (offset - ROM) / 4;
    if two { PointTwoIndexed(i); } else { PointOneIndexed(i); }
  }

  lemma PointTwoIndexed(i: nat)
    requires PointTwo(i) != Nowhere
    ensures Exists(true, PointTwo(i)) && IndexOf(true, PointTwo(i)) == i
  {
  }

  lemma PointOneIndexed(i: nat)
    requires PointOne(i) != Nowhere
    ensures Exists(false, PointOne(i)) && IndexOf(false, PointOne(i)) == i
  {
  }

  // ---- The ROM images ------------------------------------------------------------------

  /** The two images word by word. The source keeps them as 64-bit rows, last row first. */
  function ImageTwo(i: nat): Word {
    match i
    case 0 => 0x00c0006f case 1 => 0x07c0006f case 2 => 0x04c0006f case 3 => 0x0ff0000f
    case 4 => 0x7b241073 case 5 => 0x7b351073 case 6 => 0x00000517 case 7 => 0x00c55513
    case 8 => 0x00c51513 case 9 => 0xf1402473 case 10 => 0x10852023 case 11 => 0x00a40433
    case 12 => 0x40044403 case 13 => 0x00147413 case 14 => 0x02041c63 case 15 => 0xf1402473
    case 16 => 0x00a40433 case 17 => 0x40044403 case 18 => 0x00247413 case 19 => 0xfa041ce3
    case 20 => 0xfd5ff06f case 21 => 0x00000517 case 22 => 0x00c55513 case 23 => 0x00c51513
    case 24 => 0x10052623 case 25 => 0x7b302573 case 26 => 0x7b202473 case 27 => 0x00100073
    case 28 => 0x10052223 case 29 => 0x7b302573 case 30 => 0x7b202473 case 31 => 0xa85ff06f
    case 32 => 0xf1402473 case 33 => 0x10852423 case 34 => 0x7b302573 case 35 => 0x7b202473
    case 36 => 0x7b200073
    case _ => 0
  }

  function ImageOne(i: nat): Word {
    match i
    case 0 => 0x00c0006f case 1 => 0x0500006f case 2 => 0x0340006f case 3 => 0x0ff0000f
    case 4 => 0x7b241073 case 5 => 0xf1402473 case 6 => 0x10802023 case 7 => 0x40044403
    case 8 => 0x00147413 case 9 => 0x02041263 case 10 => 0xf1402473 case 11 => 0x40044403
    case 12 => 0x00247413 case 13 => 0xfc0418e3 case 14 => 0xfddff06f case 15 => 0x10002623
    case 16 => 0x7b202473 case 17 => 0x00100073 case 18 => 0x10002223 case 19 => 0x7b202473
    case 20 => 0xab1ff06f case 21 => 0xf1402473 case 22 => 0x10802423 case 23 => 0x7b202473
    case 24 => 0x7b200073
    case _ => 0
  }

  /** The registered ROM address keeps 5 (or 4) bits of the row number; rows past the end read 0. */
  function ImageWord(two: bool, offset: nat): Word {
    var row := offset / 8 % (if two then 32 else 16);
    Row(two, 2 * row + offset / 4 % 2)
  }

  function Row(two: bool, i: nat): Word {
    if two then ImageTwo(i) else ImageOne(i)
  }

  lemma ImageRow(two: bool, l: Loc)
    requires Exists(two, l)
    ensures ImageWord(two, AddressOf(two, l)) == Row(two, IndexOf(two, l))
  {
    RowArithmetic(IndexOf(two, l));
  }

  lemma RowArithmetic(i: nat)
    ensures (ROM + 4 * i) / 8 == 0x100 + i / 2 && (ROM + 4 * i) / 4 % 2 == i % 2
    ensures i < 38 ==> (0x100 + i / 2) % 32 == i / 2
    ensures i < 26 ==> (0x100 + i / 2) % 16 == i / 2
  {
    assert (ROM + 4 * i) / 4 == 0x200 + i;
    assert (ROM + 4 * i) / 8 == (0x200 + i) / 2;
  }

  // The words of the images, decoded a few at a time

  lemma DecodeForwardJumps()
    ensures Decode(0x00c0006f) == Jal(0, 12)
    ensures Decode(0x07c0006f) == Jal(0, 124)
  {
    hide Decode;
    DecodeEncodedJal(0, 12);
    DecodeEncodedJal(0, 124);
  }

  lemma DecodeExceptionJump()
    ensures Decode(0x04c0006f) == Jal(0, 76)
  {
    hide Decode;
    DecodeEncodedJal(0, 76);
  }

  lemma DecodeForwardJumpsOne()
    ensures Decode(0x0500006f) == Jal(0, 80)
    ensures Decode(0x0340006f) == Jal(0, 52)
  {
    hide Decode;
    DecodeEncodedJal(0, 80);
    DecodeEncodedJal(0, 52);
  }

  lemma DecodeLoopJumps()
    ensures Decode(0xfd5ff06f) == Jal(0, -44)
    ensures Decode(0xfddff06f) == Jal(0, -36)
  {
    hide Decode;
    DecodeEncodedJal(0, 0x20_0000 - 44);
    DecodeEncodedJal(0, 0x20_0000 - 36);
  }

  lemma DecodeWhereToJumps()
    ensures Decode(0xa85ff06f) == Jal(0, -1404)
    ensures Decode(0xab1ff06f) == Jal(0, -1360)
  {
    hide Decode;
    DecodeEncodedJal(0, 0x20_0000 - 1404);
    DecodeEncodedJal(0, 0x20_0000 - 1360);
  }

  lemma BranchOffsets()
    ensures BranchOffset(0x02041c63) == 56 && BranchOffset(0xfa041ce3) == -72
    ensures BranchOffset(0x02041263) == 36 && BranchOffset(0xfc0418e3) == -48
  {
    hide BranchOffset;
    BranchFields(1, 0x41, 24, 0x63);
    BranchFields(0x7d, 0x41, 25, 0x63);
    BranchFields(1, 0x41, 4, 0x63);
    BranchFields(0x7e, 0x41, 17, 0x63);
  }

  lemma DecodeGoBranch()
    ensures Decode(0x02041c63) == Bne(8, 0, 56)
  {
    hide JalOffset, BranchOffset, DecodeLoad, DecodeOpImm, DecodeSystem;
    BranchOffsets();
    STypeFields(0x38, 0, S0, 1, 0x63);
  }

  lemma DecodeResumeBranch()
    ensures Decode(0xfa041ce3) == Bne(8, 0, -72)
  {
    hide JalOffset, BranchOffset, DecodeLoad, DecodeOpImm, DecodeSystem;
    BranchOffsets();
    STypeFields(0xfb9, 0, S0, 1, 0x63);
  }

  lemma DecodeBranchesOne()
    ensures Decode(0x02041263) == Bne(8, 0, 36)
    ensures Decode(0xfc0418e3) == Bne(8, 0, -48)
  {
    hide JalOffset, BranchOffset, DecodeLoad, DecodeOpImm, DecodeSystem;
    BranchOffsets();
    STypeFields(0x24, 0, S0, 1, 0x63);
    STypeFields(0xfd1, 0, S0, 1, 0x63);
  }

  lemma DecodeBaseRebuild()
    ensures Decode(0x00000517) == Auipc(10, 0)
    ensures Decode(0x00c55513) == Srli(10, 10, 12)
    ensures Decode(0x00c51513) == Slli(10, 10, 12)
  {
    hide Decode;
    DecodeFixedWords(A0);
    DecodeEncodedShift(A0, A0, 12);
  }

  lemma DecodeSaves()
    ensures Decode(0x7b241073) == Csrrw(0, 0x7b2, 8)
    ensures Decode(0x7b351073) == Csrrw(0, 0x7b3, 10)
    ensures Decode(0xf1402473) == Csrr(8, 0xf14)
  {
    hide Decode;
    DecodeEncodedCsr(0x7b2, S0);
    DecodeEncodedCsr(0x7b3, A0);
    DecodeEncodedCsr(0xf14, S0);
  }

  lemma DecodeRestores()
    ensures Decode(0x7b202473) == Csrr(8, 0x7b2)
    ensures Decode(0x7b302573) == Csrr(10, 0x7b3)
  {
    hide Decode;
    DecodeEncodedCsr(0x7b2, S0);
    DecodeEncodedCsr(0x7b3, A0);
  }

  lemma DecodePrivileged()
    ensures Decode(0x00100073) == Ebreak
    ensures Decode(0x7b200073) == Dret
    ensures Decode(0x0ff0000f) == Fence
  {
    hide Decode;
    DecodeZeroFields(1, 0x73);
    DecodeZeroFields(0x7b2, 0x73);
    DecodeZeroFields(0xff, 0x0f);
  }

  lemma DecodeFlagAccess()
    ensures Decode(0x00a40433) == Add(8, 8, 10)
    ensures Decode(0x40044403) == Load(4, 8, 8, 0x400)
  {
    hide JalOffset, BranchOffset, DecodeLoad, DecodeOpImm, DecodeSystem;
    DecodeEncodedLoad(4, S0, S0, 0x400);
    ITypeFields(0x00a, S0, 0, S0, 0x33);
    SplitAt(0, 0x00a40433, 0x200_0000);
  }

  lemma DecodeFlagTests()
    ensures Decode(0x00147413) == Andi(8, 8, 1)
    ensures Decode(0x00247413) == Andi(8, 8, 2)
  {
    hide JalOffset, BranchOffset, DecodeLoad, DecodeSystem;
    ITypeFields(1, S0, 7, S0, 0x13);
    ITypeFields(2, S0, 7, S0, 0x13);
  }

  lemma DecodeStores()
    ensures Decode(0x10852023) == Store(2, 8, 10, 0x100)
    ensures Decode(0x10052623) == Store(2, 0, 10, 0x10c)
    ensures Decode(0x10052223) == Store(2, 0, 10, 0x104)
  {
    hide Decode;
    DecodeEncodedStore(2, 8, 10, 0x100);
    DecodeEncodedStore(2, 0, 10, 0x10c);
    DecodeEncodedStore(2, 0, 10, 0x104);
  }

  lemma DecodeStoresZero()
    ensures Decode(0x10802023) == Store(2, 8, 0, 0x100)
    ensures Decode(0x10002623) == Store(2, 0, 0, 0x10c)
    ensures Decode(0x10002223) == Store(2, 0, 0, 0x104)
  {
    hide Decode;
    DecodeEncodedStore(2, 8, 0, 0x100);
    DecodeEncodedStore(2, 0, 0, 0x10c);
    DecodeEncodedStore(2, 0, 0, 0x104);
  }

  lemma DecodeResumingStores()
    ensures Decode(0x10852423) == Store(2, 8, 10, 0x108)
    ensures Decode(0x10802423) == Store(2, 8, 0, 0x108)
  {
    hide Decode;
    DecodeEncodedStore(2, 8, 10, 0x108);
    DecodeEncodedStore(2, 8, 0, 0x108);
  }

  lemma EntryIsListing(two: bool)
    ensures Decode(Row(two, IndexOf(two, EntryVector))) == Listing(two, EntryVector)
  {
    hide Decode;
    DecodeForwardJumps();
  }

  lemma ExceptionIsListing(two: bool)
    ensures Decode(Row(two, IndexOf(two, ExceptionVector))) == Listing(two, ExceptionVector)
  {
    hide Decode;
    DecodeExceptionJump();
    DecodeForwardJumpsOne();
  }

  lemma ResumeIsListing(two: bool)
    ensures Decode(Row(two, IndexOf(two, ResumeVector))) == Listing(two, ResumeVector)
  {
    hide Decode;
    DecodeForwardJumps();
    DecodeForwardJumpsOne();
  }

  lemma LoopBackIsListing(two: bool)
    ensures Decode(Row(two, IndexOf(two, LoopBack))) == Listing(two, LoopBack)
  {
    hide Decode;
    DecodeLoopJumps();
  }

  predicate InSaves(l: Loc) {
    l.EntryFence? || l.SaveS0? || l.SaveA0?
  }

  lemma SavesIsListing(two: bool, l: Loc)
    requires Exists(two, l) && InSaves(l)
    ensures Decode(Row(two, IndexOf(two, l))) == Listing(two, l)
  {
    hide Decode;
    match l
    case EntryFence => DecodePrivileged();
    case SaveS0 => DecodeSaves();
    case SaveA0 => DecodeSaves();
  }

  predicate InBase(l: Loc) {
    l.BaseAuipc? || l.ExcAuipc? || l.BaseSrli? || l.ExcSrli? || l.BaseSlli? || l.ExcSlli?
  }

  lemma BaseIsListing(two: bool, l: Loc)
    requires Exists(two, l) && InBase(l)
    ensures Decode(Row(two, IndexOf(two, l))) == Listing(two, l)
  {
    hide Decode;
    match l
    case BaseAuipc | ExcAuipc => DecodeBaseRebuild();
    case BaseSrli | ExcSrli => DecodeBaseRebuild();
    case BaseSlli | ExcSlli => DecodeBaseRebuild();
  }

  predicate InPolls(l: Loc) {
    l.AddGo? || l.AddResume? || l.LoadGo? || l.LoadResume? || l.TestGo? || l.TestResume?
  }

  lemma PollsIsListing(two: bool, l: Loc)
    requires Exists(two, l) && InPolls(l)
    ensures Decode(Row(two, IndexOf(two, l))) == Listing(two, l)
  {
    hide Decode;
    match l
    case AddGo | AddResume => DecodeFlagAccess();
    case LoadGo | LoadResume => DecodeFlagAccess();
    case TestGo | TestResume => DecodeFlagTests();
  }

  predicate InBranches(l: Loc) {
    l.BranchGo? || l.BranchResume?
  }

  lemma BranchesIsListing(two: bool, l: Loc)
    requires Exists(two, l) && InBranches(l)
    ensures Decode(Row(two, IndexOf(two, l))) == Listing(two, l)
  {
    hide Decode;
    match l
    case BranchGo => DecodeGoBranch(); DecodeBranchesOne();
    case BranchResume => DecodeResumeBranch(); DecodeBranchesOne();
  }

  predicate InHartIds(l: Loc) {
    l.LoopHartId? || l.ResumeHartId? || l.ExitHartId?
  }

  lemma HartIdsIsListing(two: bool, l: Loc)
    requires Exists(two, l) && InHartIds(l)
    ensures Decode(Row(two, IndexOf(two, l))) == Listing(two, l)
  {
    hide Decode;
    match l
    case LoopHartId | ResumeHartId | ExitHartId => DecodeSaves();
  }

  predicate InReports(l: Loc) {
    l.StoreHalted? || l.StoreException? || l.StoreGoing? || l.StoreResuming?
  }

  lemma ReportsIsListing(two: bool, l: Loc)
    requires Exists(two, l) && InReports(l)
    ensures Decode(Row(two, IndexOf(two, l))) == Listing(two, l)
  {
    hide Decode;
    match l
    case StoreHalted => DecodeStores(); DecodeStoresZero();
    case StoreException => DecodeStores(); DecodeStoresZero();
    case StoreGoing => DecodeStores(); DecodeStoresZero();
    case StoreResuming => DecodeResumingStores();
  }

  predicate InRestores(l: Loc) {
    l.ExcRestoreA0? || l.GoRestoreA0? || l.ExitRestoreA0? || l.ExcRestoreS0? || l.GoRestoreS0? || l.ExitRestoreS0?
  }

  lemma RestoresIsListing(two: bool, l: Loc)
    requires Exists(two, l) && InRestores(l)
    ensures Decode(Row(two, IndexOf(two, l))) == Listing(two, l)
  {
    hide Decode;
    match l
    case ExcRestoreA0 | GoRestoreA0 | ExitRestoreA0 => DecodeRestores();
    case ExcRestoreS0 | GoRestoreS0 | ExitRestoreS0 => DecodeRestores();
  }

  predicate InEnds(l: Loc) {
    l.GoJump? || l.ExcEbreak? || l.ExitDret?
  }

  lemma EndsIsListing(two: bool, l: Loc)
    requires Exists(two, l) && InEnds(l)
    ensures Decode(Row(two, IndexOf(two, l))) == Listing(two, l)
  {
    hide Decode;
    match l
    case GoJump => DecodeWhereToJumps();
    case ExcEbreak => DecodePrivileged();
    case ExitDret => DecodePrivileged();
  }

  /** The images were assembled from the listing: what a hart fetches at the address of a
      program point decodes to the instruction the listing has there. */
  lemma ImageIsListing(two: bool, l: Loc)
    requires Exists(two, l)
    ensures Decode(ImageWord(two, AddressOf(two, l))) == Listing(two, l)
  {
    hide Decode, Listing, AddressOf, IndexOf;
    ImageRow(two, l);
    if l.EntryVector? { EntryIsListing(two); }
    else if l.ExceptionVector? { ExceptionIsListing(two); }
    else if l.ResumeVector? { ResumeIsListing(two); }
    else if l.LoopBack? { LoopBackIsListing(two); }
    else if InSaves(l) { SavesIsListing(two, l); }
    else if InBase(l) { BaseIsListing(two, l); }
    else if InPolls(l) { PollsIsListing(two, l); }
    else if InBranches(l) { BranchesIsListing(two, l); }
    else if InHartIds(l) { HartIdsIsListing(two, l); }
    else if InReports(l) { ReportsIsListing(two, l); }
    else if InRestores(l) { RestoresIsListing(two, l); }
    else { EndsIsListing(two, l); }
  }
}
