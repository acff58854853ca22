/**
 The analyzer's scan as a function of its state: what each instruction does to the environments,
 the gate, the counters and the verdict, and what a whole module does in listing order.
 */
module Scan {
  import opened Common
  import opened Types
  import opened TypeSize
  import opened Ir
  import opened Gep
  import opened Gate

  datatype DmaPolicy = Verify | RequireIommu | Ignore

  datatype AsmPolicy = Conservative | Trap

  datatype PtrVal = KmallocPtr(id: nat, offset: int) | DmaPtr(id: nat, offset: int) | UnknownPtr

  datatype IntVal = PtrOffset(id: nat, offset: int) | UnknownInt

  /** One constructor per message the scan can produce. */
  datatype Reason =
    | KmallocNoSize | KmallocSizeNotConst
    | KcallocNoCount | KcallocNoSize | KcallocNotConst | KcallocOverflow
    | KfreeNoPointer | KfreeNotLocal | DoubleFree(func: string)
    | MemsetNoLength | MemsetLengthNotConst
    | MemcpyNoSource | MemcpyNoLength | MemcpyLengthNotConst
    | UseAfterFree(kind: VcKind, func: string)
    | OutOfBoundsAccess(kind: VcKind, func: string)
    | SolverUnknown(kind: VcKind)
    | HitlBlocked(kind: VcKind, vc: string)
    | MissingMetadata
    | AsmTrapped(func: string) | AsmOpaque(func: string, text: string)
    | DmaAllocNoSize | DmaAllocSizeNotConst
    | DmaMapNoPointer | DmaMapNoSize | DmaMapSizeNotConst
    | GepUnsupported(dma: bool) | GepBaseNotLocal
    | PtrToIntNotLocal | IntToPtrNotLocal | BitCastNotLocal
    | AddUnsupported | SubUnsupported | SubPointerRhs
    | StoreUnsized | LoadUnsized
    | IrqRace(kind: VcKind, id: nat, func: string)
    | DmaNotMapped(id: nat)

  /** `AnalysisResult` */
  datatype Verdict = Pass | Unknown(why: Reason) | Fail(why: Reason)

  /** `timeouts` holds the ordinals of the solver calls that answer `Unknown`; every other call decides. */
  datatype ConfigData = ConfigData(
    defs: Defs, dma: DmaPolicy, asmPolicy: AsmPolicy, irqRisk: bool, timeouts: set<nat>)

  function DefaultConfig(): (c: ConfigData)
    ensures Acyclic(c.defs)
  {
    assert Ranked(map[], map[]);
    ConfigData(map[], Verify, Conservative, false, {})
  }

  type Config = c: ConfigData | Acyclic(c.defs) ghost witness DefaultConfig()

  datatype ScanState = ScanState(
    ptrs: map<Name, PtrVal>,      // ptr_env
    ints: map<Name, IntVal>,      // int_env
    sizes: map<nat, U64>,         // alloc_sizes
    freed: set<nat>,              // freed_allocs
    counter: nat,                 // alloc_counter
    verdict: Verdict,             // final_result
    slots: map<Name, PtrVal>,     // alloca_store_map
    slotNames: set<Name>,         // alloca_names
    asmVcs: nat,                  // inline_asm_vcs
    dmaVcs: nat,
    dmaIds: set<nat>,             // dma_allocs_in_func
    mapped: set<nat>,             // iommu_mapped_in_func
    irqVcs: nat,                  // irq_race_vcs
    gate: GateState,
    checks: nat)                  // solver calls made so far

  function InitialState(gate: GateState): ScanState {
    ScanState(map[], map[], map[], {}, 0, Pass, map[], {}, 0, 0, {}, {}, 0, gate, 0)
  }

  // ------------------------------------------------------------ verdicts and checks

  /** `mark_unknown` */
  function MarkUnknown(v: Verdict, why: Reason): Verdict {
    if v.Pass? then Unknown(why) else v
  }

  function Marked(s: ScanState, why: Reason): ScanState {
    s.(verdict := MarkUnknown(s.verdict, why))
  }

  function Failed(s: ScanState, why: Reason): ScanState { s.(verdict := Fail(why)) }

  datatype Access = Oob | Safe | Undecided | Blocked

  /** `check_access` */
  function CheckAccess(cfg: Config, s: ScanState, size: U64, offset: int, len: U64, vc: string, cls: string)
    : (ScanState, Access)
  {
    var asked := s.(gate := Ask(s.gate, vc, cls));
    if !Approves(s.gate, vc, cls) then (asked, Blocked) else
    var checked := asked.(checks := s.checks + 1);
    if s.checks in cfg.timeouts then (checked, Undecided)
    else if OutOfBounds(size, offset, len) then (checked, Oob)
    else (checked, Safe)
  }

  /** What a completed check does to the verdict. */
  function Settle(s: ScanState, r: Access, k: VcKind, at: Loc): ScanState {
    match r
    case Oob => Failed(s, OutOfBoundsAccess(k, at.func))
    case Safe => s
    case Undecided => Marked(s, SolverUnknown(k))
    case Blocked => Marked(s, HitlBlocked(k, VcId(at, k)))
  }

  /** Look up the allocation's size, check the access, settle the verdict. */
  function CheckBounds(cfg: Config, s: ScanState, at: Loc, k: VcKind, id: nat, offset: int, len: U64, cls: string)
    : ScanState
  {
    if id !in s.sizes then Marked(s, MissingMetadata) else
    var (t, r) := CheckAccess(cfg, s, s.sizes[id], offset, len, VcId(at, k), cls);
    Settle(t, r, k, at)
  }

  // ------------------------------------------------------------ calls

  /** A new allocation, visible under `dest` when the call has a result. */
  function Allocate(s: ScanState, size: U64, dest: Option<Name>, dma: bool): ScanState {
    var p := if dma then DmaPtr(s.counter, 0) else KmallocPtr(s.counter, 0);
    s.(counter := s.counter + 1,
       sizes := s.sizes[s.counter := size],
       dmaIds := if dma then s.dmaIds + {s.counter} else s.dmaIds,
       ptrs := if dest.Some? then s.ptrs[dest.value := p] else s.ptrs)
  }

  function ExecKmalloc(s: ScanState, args: seq<Operand>, dest: Option<Name>): ScanState {
    match Arg(args, 0)
    case None => Marked(s, KmallocNoSize)
    case Some(op) =>
      match ConstU64(op)
      case None => Marked(s, KmallocSizeNotConst)
      case Some(size) => Allocate(s, size, dest, false)
  }

  function ExecKcalloc(s: ScanState, args: seq<Operand>, dest: Option<Name>): ScanState {
    match (Arg(args, 0), Arg(args, 1))
    case (None, _) => Marked(s, KcallocNoCount)
    case (Some(_), None) => Marked(s, KcallocNoSize)
    case (Some(n), Some(size)) =>
      match (ConstU64(n), ConstU64(size))
      case (Some(a), Some(b)) =>
        (match CheckedMul(a, b)
         case None => Failed(s, KcallocOverflow)
         case Some(total) => Allocate(s, total, dest, false))
      case (_, _) => Marked(s, KcallocNotConst)
  }

  function ExecKfree(s: ScanState, at: Loc, args: seq<Operand>): ScanState {
    match Arg(args, 0)
    case None => Marked(s, KfreeNoPointer)
    case Some(op) =>
      if !op.Local? then Marked(s, KfreeNotLocal)
      else if op.name in s.ptrs && s.ptrs[op.name].KmallocPtr? then
        var id := s.ptrs[op.name].id;
        if id in s.freed then Failed(s, DoubleFree(at.func)) else s.(freed := s.freed + {id})
      else s
  }

  /** One pointer operand of `memset`/`memcpy`; only kmalloc-family pointers are checked. */
  function ExecBlockAccess(cfg: Config, s: ScanState, at: Loc, k: VcKind, op: Operand, len: U64): ScanState {
    if op.Local? && op.name in s.ptrs && s.ptrs[op.name].KmallocPtr? then
      var p := s.ptrs[op.name];
      if p.id in s.freed then Failed(s, UseAfterFree(k, at.func))
      else CheckBounds(cfg, s, at, k, p.id, p.offset, len, SizedClass(KindText(k), len))
    else s
  }

  function ExecMemset(cfg: Config, s: ScanState, at: Loc, args: seq<Operand>): ScanState {
    match (Arg(args, 0), Arg(args, 2))
    case (None, _) => s
    case (Some(_), None) => Marked(s, MemsetNoLength)
    case (Some(dest), Some(len)) =>
      if !dest.Local? then s
      else
        match ConstU64(len)
        case None => Marked(s, MemsetLengthNotConst)
        case Some(n) => ExecBlockAccess(cfg, s, at, MemsetVc, dest, n)
  }

  function ExecMemcpy(cfg: Config, s: ScanState, at: Loc, args: seq<Operand>): ScanState {
    match (Arg(args, 0), Arg(args, 1), Arg(args, 2))
    case (None, _, _) => s
    case (Some(_), None, _) => Marked(s, MemcpyNoSource)
    case (Some(_), Some(_), None) => Marked(s, MemcpyNoLength)
    case (Some(dest), Some(src), Some(len)) =>
      match ConstU64(len)
      case None => Marked(s, MemcpyLengthNotConst)
      case Some(n) =>
        var t := ExecBlockAccess(cfg, s, at, MemcpyDestVc, dest, n);
        if t.verdict.Fail? then t else ExecBlockAccess(cfg, t, at, MemcpySourceVc, src, n)
  }

  function ExecAsm(cfg: Config, s: ScanState, at: Loc, text: string): ScanState {
    if cfg.asmPolicy.Trap? then Failed(s.(asmVcs := s.asmVcs + 1), AsmTrapped(at.func))
    else if IsSafeAsm(text) then s
    else
      var vc := VcId(at, InlineAsmVc);
      var t := s.(asmVcs := s.asmVcs + 1, gate := Ask(s.gate, vc, ASM_CLASS));
      if Approves(s.gate, vc, ASM_CLASS) then Marked(t, AsmOpaque(at.func, text))
      else Marked(t, HitlBlocked(InlineAsmVc, vc))
  }

  /** The gate is asked about the allocation, and its answer is ignored. */
  function ExecDmaAlloc(s: ScanState, at: Loc, args: seq<Operand>, dest: Option<Name>): ScanState {
    match Arg(args, 1)
    case None => Marked(s, DmaAllocNoSize)
    case Some(op) =>
      match ConstU64(op)
      case None => Marked(s, DmaAllocSizeNotConst)
      case Some(size) =>
        var t := Allocate(s, size, dest, true);
        t.(dmaVcs := t.dmaVcs + 1,
           gate := Ask(t.gate, VcId(at, DmaAllocVc), SizedClass(KindText(DmaAllocVc), size)))
  }

  function ExecDmaMap(cfg: Config, s: ScanState, at: Loc, args: seq<Operand>): ScanState {
    match (Arg(args, 1), Arg(args, 2))
    case (None, _) => Marked(s, DmaMapNoPointer)
    case (Some(_), None) => Marked(s, DmaMapNoSize)
    case (Some(ptr), Some(size)) =>
      match ConstU64(size)
      case None => Marked(s, DmaMapSizeNotConst)
      case Some(n) =>
        if ptr.Local? && ptr.name in s.ptrs && !s.ptrs[ptr.name].UnknownPtr? && s.ptrs[ptr.name].id in s.sizes then
          var p := s.ptrs[ptr.name];
          var (t, r) := CheckAccess(cfg, s, s.sizes[p.id], p.offset, n, VcId(at, DmaMapVc), SizedClass("dma_bounds", n));
          Settle(if r.Safe? then t else t.(dmaVcs := t.dmaVcs + 1), r, DmaMapVc, at)
        else s
  }

  function ExecIommuMap(s: ScanState): ScanState { s.(mapped := s.mapped + s.dmaIds) }

  function ExecCall(cfg: Config, s: ScanState, at: Loc, callee: Callee, args: seq<Operand>, dest: Option<Name>): ScanState {
    if s.verdict.Fail? then s else
    match CalleeName(callee)
    case None => if callee.Asm? then ExecAsm(cfg, s, at, callee.text) else s
    case Some(name) =>
      match RoutineNamed(name)
      case Kmalloc => ExecKmalloc(s, args, dest)
      case Kcalloc => ExecKcalloc(s, args, dest)
      case Kfree => ExecKfree(s, at, args)
      case Memset => ExecMemset(cfg, s, at, args)
      case Memcpy => ExecMemcpy(cfg, s, at, args)
      case DmaAlloc => if cfg.dma.Ignore? then s else ExecDmaAlloc(s, at, args, dest)
      case DmaMap => if cfg.dma.Ignore? then s else ExecDmaMap(cfg, s, at, args)
      case IommuMap => ExecIommuMap(s)
      case OtherRoutine => s
  }

  // ------------------------------------------------------------ pointer and integer arithmetic

  function SetPtr(s: ScanState, dest: Name, p: PtrVal): ScanState { s.(ptrs := s.ptrs[dest := p]) }

  function SetInt(s: ScanState, dest: Name, v: IntVal): ScanState { s.(ints := s.ints[dest := v]) }

  function ExecGep(cfg: Config, s: ScanState, base: Operand, indices: seq<Operand>, dest: Name): ScanState {
    if !base.Local? then Marked(SetPtr(s, dest, UnknownPtr), GepBaseNotLocal) else
    var p := if base.name in s.ptrs then s.ptrs[base.name]
             else if base.name in s.slots then s.slots[base.name]
             else UnknownPtr;
    match p
    case UnknownPtr => SetPtr(s, dest, UnknownPtr)
    case KmallocPtr(id, offset) =>
      (match GepOffset(base, indices, offset, cfg.defs)
       case Some(o) => SetPtr(s, dest, KmallocPtr(id, o))
       case None => Marked(SetPtr(s, dest, UnknownPtr), GepUnsupported(false)))
    case DmaPtr(id, offset) =>
      (match GepOffset(base, indices, offset, cfg.defs)
       case Some(o) => SetPtr(s, dest, DmaPtr(id, o))
       case None => Marked(SetPtr(s, dest, UnknownPtr), GepUnsupported(true)))
  }

  function ExecPtrToInt(s: ScanState, op: Operand, dest: Name): ScanState {
    if !op.Local? then Marked(SetInt(s, dest, UnknownInt), PtrToIntNotLocal)
    else if op.name in s.ptrs && s.ptrs[op.name].KmallocPtr?
    then SetInt(s, dest, PtrOffset(s.ptrs[op.name].id, s.ptrs[op.name].offset))
    else SetInt(s, dest, UnknownInt)
  }

  function ExecIntToPtr(s: ScanState, op: Operand, dest: Name): ScanState {
    if !op.Local? then Marked(SetPtr(s, dest, UnknownPtr), IntToPtrNotLocal)
    else if op.name in s.ints && s.ints[op.name].PtrOffset?
    then SetPtr(s, dest, KmallocPtr(s.ints[op.name].id, s.ints[op.name].offset))
    else SetPtr(s, dest, UnknownPtr)
  }

  /** The tracked integer an operand names, if any. */
  function IntAt(s: ScanState, op: Operand): Option<IntVal> {
    if op.Local? && op.name in s.ints then Some(s.ints[op.name]) else None
  }

  predicate HoldsOffset(v: Option<IntVal>) { v.Some? && v.value.PtrOffset? }

  function ExecAdd(s: ScanState, op0: Operand, op1: Operand, dest: Name): ScanState {
    var l, r := IntAt(s, op0), IntAt(s, op1);
    if HoldsOffset(l) && ConstU64(op1).Some?
    then SetInt(s, dest, PtrOffset(l.value.id, l.value.offset + ConstU64(op1).value))
    else if !HoldsOffset(l) && HoldsOffset(r) && ConstU64(op0).Some?
    then SetInt(s, dest, PtrOffset(r.value.id, r.value.offset + ConstU64(op0).value))
    else if l.Some? || r.Some? then Marked(SetInt(s, dest, UnknownInt), AddUnsupported)
    else s
  }

  function ExecSub(s: ScanState, op0: Operand, op1: Operand, dest: Name): ScanState {
    var l, r := IntAt(s, op0), IntAt(s, op1);
    var t :=
      if HoldsOffset(l) && ConstU64(op1).Some?
      then SetInt(s, dest, PtrOffset(l.value.id, l.value.offset - ConstU64(op1).value))
      else if l.Some? || r.Some? then Marked(SetInt(s, dest, UnknownInt), SubUnsupported)
      else s;
    if r.Some? then Marked(t, SubPointerRhs) else t
  }

  function ExecBitCast(s: ScanState, op: Operand, dest: Name): ScanState {
    if !op.Local? then Marked(SetPtr(s, dest, UnknownPtr), BitCastNotLocal)
    else SetPtr(s, dest, if op.name in s.ptrs then s.ptrs[op.name] else UnknownPtr)
  }

  // ------------------------------------------------------------ loads and stores

  function ExecIrqRace(s: ScanState, at: Loc, k: VcKind, id: nat): ScanState {
    var vc := VcId(at, k);
    var t := s.(irqVcs := s.irqVcs + 1, gate := Ask(s.gate, vc, IrqClass(id)));
    if Approves(s.gate, vc, IrqClass(id)) then Marked(t, IrqRace(k, id, at.func))
    else Marked(t, HitlBlocked(k, vc))
  }

  function ExecSizedAccess(cfg: Config, s: ScanState, at: Loc, k: VcKind, id: nat, offset: int, n: U64): ScanState {
    var t := CheckBounds(cfg, s, at, k, id, offset, n, SizedClass(KindText(k), n));
    if id !in s.sizes || t.verdict.Fail? || !cfg.irqRisk then t
    else ExecIrqRace(t, at, if k.StoreVc? then IrqStoreVc else IrqLoadVc, id)
  }

  function ExecTypedAccess(cfg: Config, s: ScanState, at: Loc, k: VcKind, id: nat, offset: int, size: Option<U64>): ScanState {
    match size
    case None => Marked(s, if k.StoreVc? then StoreUnsized else LoadUnsized)
    case Some(n) => ExecSizedAccess(cfg, s, at, k, id, offset, n)
  }

  /** A typed access through pointer `p`: use after free, size of the type, bounds, IRQ race. */
  function ExecAccess(cfg: Config, s: ScanState, at: Loc, k: VcKind, p: PtrVal, ty: Type): ScanState
    requires k.StoreVc? || k.LoadVc?
  {
    if p.UnknownPtr? then s
    else if p.id in s.freed then Failed(s, UseAfterFree(k, at.func))
    else ExecTypedAccess(cfg, s, at, k, p.id, p.offset, SizeOf(ty, cfg.defs))
  }

  /** A store of a tracked local into a stack slot overwrites the slot; no other store does. */
  function RecordSpill(s: ScanState, slot: Name, value: Operand): ScanState {
    if slot in s.slotNames && value.Local? && value.name in s.ptrs
    then s.(slots := s.slots[slot := s.ptrs[value.name]])
    else s
  }

  function ExecStore(cfg: Config, s: ScanState, at: Loc, address: Operand, value: Operand): ScanState {
    if !address.Local? then s else
    var t := RecordSpill(s, address.name, value);
    if address.name in t.ptrs then ExecAccess(cfg, t, at, StoreVc, t.ptrs[address.name], TypeOf(value)) else t
  }

  /** A load from a filled stack slot recovers the pointer spilled there. */
  function RecoverSpill(s: ScanState, slot: Name, dest: Name): ScanState {
    if slot in s.slotNames && slot in s.slots then SetPtr(s, dest, s.slots[slot]) else s
  }

  function ExecLoad(cfg: Config, s: ScanState, at: Loc, address: Operand, ty: Type, dest: Name): ScanState {
    if !address.Local? then s else
    var t := RecoverSpill(s, address.name, dest);
    if address.name in t.ptrs then ExecAccess(cfg, t, at, LoadVc, t.ptrs[address.name], ty) else t
  }

  // ------------------------------------------------------------ instructions and loops

  function Exec(cfg: Config, at: Loc, instr: Instr, s: ScanState): ScanState {
    match instr
    case Alloca(slot) => s.(slotNames := s.slotNames + {slot})
    case Call(callee, args, result) => ExecCall(cfg, s, at, callee, args, result)
    case GetElementPtr(base, indices, dest) => ExecGep(cfg, s, base, indices, dest)
    case PtrToInt(op, dest) => ExecPtrToInt(s, op, dest)
    case IntToPtr(op, dest) => ExecIntToPtr(s, op, dest)
    case Add(op0, op1, dest) => ExecAdd(s, op0, op1, dest)
    case Sub(op0, op1, dest) => ExecSub(s, op0, op1, dest)
    case BitCast(op, dest) => ExecBitCast(s, op, dest)
    case Store(address, value) => ExecStore(cfg, s, at, address, value)
    case Load(address, ty, dest) => ExecLoad(cfg, s, at, address, ty, dest)
    case OtherInstr => s
  }

  /** A block from instruction `i` on; a failure breaks out. */
  function RunBlock(cfg: Config, f: string, b: nat, instrs: seq<Instr>, i: nat, s: ScanState): ScanState
    requires i <= |instrs|
    decreases |instrs| - i
  {
    if i == |instrs| || s.verdict.Fail? then s
    else RunBlock(cfg, f, b, instrs, i + 1, Exec(cfg, Loc(f, b, i), instrs[i], s))
  }

  /** A function from block `b` on. */
  function RunFunction(cfg: Config, f: Function, b: nat, s: ScanState): ScanState
    requires b <= |f.blocks|
    decreases |f.blocks| - b
  {
    if b == |f.blocks| || s.verdict.Fail? then s
    else RunFunction(cfg, f, b + 1, RunBlock(cfg, f.name, b, f.blocks[b], 0, s))
  }

  /** A module from function `k` on; nothing is reset between functions. */
  function RunModule(cfg: Config, fs: seq<Function>, k: nat, s: ScanState): ScanState
    requires k <= |fs|
    decreases |fs| - k
  {
    if k == |fs| || s.verdict.Fail? then s
    else RunModule(cfg, fs, k + 1, RunFunction(cfg, fs[k], 0, s))
  }

  // ------------------------------------------------------------ the instruction stream

  datatype Site = Site(at: Loc, instr: Instr)

  /** Every instruction of the module in listing order; terminators do not appear. */
  function BlockSites(f: string, b: nat, instrs: seq<Instr>, i: nat): (r: seq<Site>)
    requires i <= |instrs|
    ensures |r| == |instrs| - i
    ensures forall j :: 0 <= j < |r| ==> r[j] == Site(Loc(f, b, i + j), instrs[i + j])
    decreases |instrs| - i
  {
    if i == |instrs| then [] else [Site(Loc(f, b, i), instrs[i])] + BlockSites(f, b, instrs, i + 1)
  }

  function FunctionSites(f: Function, b: nat): seq<Site>
    requires b <= |f.blocks|
    decreases |f.blocks| - b
  {
    if b == |f.blocks| then [] else BlockSites(f.name, b, f.blocks[b], 0) + FunctionSites(f, b + 1)
  }

  function ModuleSites(fs: seq<Function>, k: nat): seq<Site>
    requires k <= |fs|
    decreases |fs| - k
  {
    if k == |fs| then [] else FunctionSites(fs[k], 0) + ModuleSites(fs, k + 1)
  }

  function RunSites(cfg: Config, sites: seq<Site>, s: ScanState): ScanState
    decreases |sites|
  {
    if sites == [] || s.verdict.Fail? then s
    else RunSites(cfg, sites[1..], Exec(cfg, sites[0].at, sites[0].instr, s))
  }

  lemma {:induction false} RunSitesConcat(cfg: Config, a: seq<Site>, b: seq<Site>, s: ScanState)
    ensures RunSites(cfg, a + b, s) == RunSites(cfg, b, RunSites(cfg, a, s))
  {
    hide Exec;
    if a == [] {
      assert a + b == b;
    } else if !s.verdict.Fail? {
      assert (a + b)[1..] == a[1..] + b;
      RunSitesConcat(cfg, a[1..], b, Exec(cfg, a[0].at, a[0].instr, s));
    }
  }

  lemma {:induction false} BlockIsFlat(cfg: Config, f: string, b: nat, instrs: seq<Instr>, i: nat, s: ScanState)
    requires i <= |instrs|
    ensures RunBlock(cfg, f, b, instrs, i, s) == RunSites(cfg, BlockSites(f, b, instrs, i), s)
    decreases |instrs| - i
  {
    hide Exec;
    if i < |instrs| && !s.verdict.Fail? {
      var sites := BlockSites(f, b, instrs, i);
      assert sites[1..] == BlockSites(f, b, instrs, i + 1);
      BlockIsFlat(cfg, f, b, instrs, i + 1, Exec(cfg, Loc(f, b, i), instrs[i], s));
    }
  }

  lemma {:induction false} FunctionIsFlat(cfg: Config, f: Function, b: nat, s: ScanState)
    requires b <= |f.blocks|
    ensures RunFunction(cfg, f, b, s) == RunSites(cfg, FunctionSites(f, b), s)
    decreases |f.blocks| - b
  {
    hide Exec;
    if b < |f.blocks| && !s.verdict.Fail? {
      var t := RunBlock(cfg, f.name, b, f.blocks[b], 0, s);
      BlockIsFlat(cfg, f.name, b, f.blocks[b], 0, s);
      FunctionIsFlat(cfg, f, b + 1, t);
      RunSitesConcat(cfg, BlockSites(f.name, b, f.blocks[b], 0), FunctionSites(f, b + 1), s);
    }
  }

  /** The three nested loops with their breaks are one pass over the instruction stream. */
  lemma {:induction false} ModuleIsFlat(cfg: Config, fs: seq<Function>, k: nat, s: ScanState)
    requires k <= |fs|
    ensures RunModule(cfg, fs, k, s) == RunSites(cfg, ModuleSites(fs, k), s)
    decreases |fs| - k
  {
    hide Exec;
    if k < |fs| && !s.verdict.Fail? {
      var t := RunFunction(cfg, fs[k], 0, s);
      FunctionIsFlat(cfg, fs[k], 0, s);
      ModuleIsFlat(cfg, fs, k + 1, t);
      RunSitesConcat(cfg, FunctionSites(fs[k], 0), ModuleSites(fs, k + 1), s);
    }
  }

  // ------------------------------------------------------------ the last check

  /** The DMA allocations no `iommu_map` followed. */
  function Unmapped(s: ScanState): set<nat> { s.dmaIds - s.mapped }

  /**
   The verdicts `analyze` can return from the final scan state. The allocation named in the
   message is whichever one the hash set yields first.
   */
  ghost predicate IsOutcome(cfg: Config, s: ScanState, v: Verdict) {
    if cfg.dma.RequireIommu? && Unmapped(s) != {}
    then v.Fail? && v.why.DmaNotMapped? && v.why.id in Unmapped(s)
    else v == s.verdict
  }
}
