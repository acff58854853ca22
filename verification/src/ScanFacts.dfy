/** What every step of the scan keeps, and what follows for whole runs. */
module ScanFacts {
  import opened Common
  import opened Types
  import opened TypeSize
  import opened Ir
  import opened Gep
  import opened Gate
  import opened Scan

  // ------------------------------------------------------------ the state invariant

  /** kmalloc pointers carry kmalloc ids, DMA pointers carry DMA ids. */
  predicate PtrOk(counter: nat, dmaIds: set<nat>, p: PtrVal) {
    match p
    case KmallocPtr(id, _) => id < counter && id !in dmaIds
    case DmaPtr(id, _) => id in dmaIds
    case UnknownPtr => true
  }

  predicate IntOk(counter: nat, dmaIds: set<nat>, v: IntVal) {
    v.PtrOffset? ==> v.id < counter && v.id !in dmaIds
  }

  ghost predicate Inv(s: ScanState) {
    && (forall i :: i in s.sizes <==> 0 <= i < s.counter)
    && (forall i :: i in s.dmaIds ==> i < s.counter)
    && (forall i :: i in s.freed ==> i < s.counter && i !in s.dmaIds)
    && s.mapped <= s.dmaIds
    && (forall n :: n in s.ptrs ==> PtrOk(s.counter, s.dmaIds, s.ptrs[n]))
    && (forall n :: n in s.slots ==> PtrOk(s.counter, s.dmaIds, s.slots[n]))
    && (forall n :: n in s.ints ==> IntOk(s.counter, s.dmaIds, s.ints[n]))
  }

  /** Pass may become anything, Unknown keeps its reason until a failure. */
  predicate Climbs(v: Verdict, w: Verdict) { v.Pass? || w == v || w.Fail? }

  predicate SameHeap(s: ScanState, t: ScanState) {
    && t.ptrs == s.ptrs && t.ints == s.ints && t.sizes == s.sizes && t.freed == s.freed
    && t.counter == s.counter && t.slots == s.slots && t.slotNames == s.slotNames
    && t.dmaIds == s.dmaIds && t.mapped == s.mapped
  }

  predicate IsIommuMap(instr: Instr) { IsCallTo(instr, "iommu_map") }

  /** Verdict and counters of one step: it climbs, metadata is never missing, race and asm counts are reported. */
  predicate Reports(s: ScanState, t: ScanState) {
    && Climbs(s.verdict, t.verdict)
    && (t.verdict == Unknown(MissingMetadata) ==> s.verdict == t.verdict)
    && s.irqVcs <= t.irqVcs && s.asmVcs <= t.asmVcs
    && (s.irqVcs < t.irqVcs || s.asmVcs < t.asmVcs ==> !t.verdict.Pass?)
  }

  /** DMA bookkeeping of one step: `iommu_map` covers exactly what is allocated by then. */
  predicate DmaStep(iommu: bool, s: ScanState, t: ScanState) {
    if iommu then t.mapped == s.mapped + s.dmaIds && t.dmaIds == s.dmaIds
    else t.mapped == s.mapped && s.dmaIds <= t.dmaIds
  }

  /** What one instruction may do, from a state that has not failed. */
  ghost predicate Step(iommu: bool, s: ScanState, t: ScanState) {
    Inv(t) && Reports(s, t) && DmaStep(iommu, s, t)
  }

  // ------------------------------------------------------------ one step

  lemma QuietStep(s: ScanState, t: ScanState)
    requires Inv(s) && SameHeap(s, t) && Reports(s, t)
    ensures Step(false, s, t)
  {
  }

  lemma SetPtrStep(s: ScanState, dest: Name, p: PtrVal)
    requires Inv(s) && PtrOk(s.counter, s.dmaIds, p)
    ensures Step(false, s, SetPtr(s, dest, p))
  {
  }

  lemma SetIntStep(s: ScanState, dest: Name, v: IntVal)
    requires Inv(s) && IntOk(s.counter, s.dmaIds, v)
    ensures Step(false, s, SetInt(s, dest, v))
  {
  }

  /** A tracked pointer names an allocation whose size is recorded. */
  lemma KnownPtr(s: ScanState, n: Name)
    requires Inv(s) && n in s.ptrs
    ensures PtrOk(s.counter, s.dmaIds, s.ptrs[n])
  {
  }

  lemma KnownSlot(s: ScanState, n: Name)
    requires Inv(s) && n in s.slots
    ensures PtrOk(s.counter, s.dmaIds, s.slots[n])
  {
  }

  lemma KnownInt(s: ScanState, op: Operand)
    requires Inv(s) && IntAt(s, op).Some?
    ensures IntOk(s.counter, s.dmaIds, IntAt(s, op).value)
  {
  }

  lemma MarkedAfter(s: ScanState, t: ScanState, why: Reason)
    requires Step(false, s, t) && !t.verdict.Fail? && !why.MissingMetadata?
    ensures Step(false, s, Marked(t, why))
  {
  }

  /** `SameHeap`, the verdict and the two reporting counters. */
  predicate Unchanged(s: ScanState, t: ScanState) {
    SameHeap(s, t) && t.verdict == s.verdict && t.irqVcs == s.irqVcs && t.asmVcs == s.asmVcs
  }

  lemma CheckAccessQuiet(cfg: Config, s: ScanState, size: U64, offset: int, len: U64, vc: string, cls: string)
    ensures Unchanged(s, CheckAccess(cfg, s, size, offset, len, vc, cls).0)
  {
    hide Ask;
    hide Approves;
    hide OutOfBounds;
  }

  lemma SettleReports(s: ScanState, r: Access, k: VcKind, at: Loc)
    requires !s.verdict.Fail?
    ensures var t := Settle(s, r, k, at);
      SameHeap(s, t) && Reports(s, t) && t.irqVcs == s.irqVcs && t.asmVcs == s.asmVcs
  {
    hide VcId;
  }

  lemma {:induction false} CheckBoundsStep(cfg: Config, s: ScanState, at: Loc, k: VcKind, id: nat, offset: int, len: U64, cls: string)
    requires !s.verdict.Fail? && id in s.sizes
    ensures var t := CheckBounds(cfg, s, at, k, id, offset, len, cls);
      SameHeap(s, t) && Reports(s, t) && t.irqVcs == s.irqVcs && t.asmVcs == s.asmVcs
  {
    hide VcId;
    hide CheckAccess;
    hide Settle;
    var (t, r) := CheckAccess(cfg, s, s.sizes[id], offset, len, VcId(at, k), cls);
    CheckAccessQuiet(cfg, s, s.sizes[id], offset, len, VcId(at, k), cls);
    SettleReports(t, r, k, at);
  }

  lemma {:induction false} AllocateStep(s: ScanState, size: U64, dest: Option<Name>, dma: bool)
    requires Inv(s)
    ensures Step(false, s, Allocate(s, size, dest, dma))
  {
  }

  lemma {:induction false} KfreeStep(s: ScanState, at: Loc, args: seq<Operand>)
    requires Inv(s) && !s.verdict.Fail?
    ensures Step(false, s, ExecKfree(s, at, args))
  {
  }

  lemma {:induction false} AllocatorStep(s: ScanState, args: seq<Operand>, dest: Option<Name>)
    requires Inv(s) && !s.verdict.Fail?
    ensures Step(false, s, ExecKmalloc(s, args, dest)) && Step(false, s, ExecKcalloc(s, args, dest))
  {
    hide Inv;
    hide Allocate;
    hide CheckedMul;
    if |args| >= 1 && ConstU64(args[0]).Some? {
      AllocateStep(s, ConstU64(args[0]).value, dest, false);
      if |args| >= 2 && ConstU64(args[1]).Some? {
        var total := CheckedMul(ConstU64(args[0]).value, ConstU64(args[1]).value);
        if total.Some? {
          AllocateStep(s, total.value, dest, false);
        }
      }
    }
    forall why {:trigger Marked(s, why)} ensures Step(false, s, Marked(s, why)) || why.MissingMetadata? {
      MarkedStep(s, why);
    }
    FailedStep(s, KcallocOverflow);
  }

  lemma MarkedStep(s: ScanState, why: Reason)
    requires Inv(s)
    ensures !why.MissingMetadata? ==> Step(false, s, Marked(s, why))
  {
  }

  lemma FailedStep(s: ScanState, why: Reason)
    requires Inv(s)
    ensures Step(false, s, Failed(s, why))
  {
  }

  lemma {:induction false} BlockAccessStep(cfg: Config, s: ScanState, at: Loc, k: VcKind, op: Operand, len: U64)
    requires Inv(s) && !s.verdict.Fail?
    ensures Step(false, s, ExecBlockAccess(cfg, s, at, k, op, len))
  {
    hide CheckBounds;
    hide KindText;
    hide SizedClass;
    if op.Local? && op.name in s.ptrs && s.ptrs[op.name].KmallocPtr? {
      var p := s.ptrs[op.name];
      assert PtrOk(s.counter, s.dmaIds, p);
      CheckBoundsStep(cfg, s, at, k, p.id, p.offset, len, SizedClass(KindText(k), len));
    }
  }

  lemma StepTransitive(s: ScanState, t: ScanState, u: ScanState)
    requires Step(false, s, t) && !t.verdict.Fail? && Step(false, t, u)
    ensures Step(false, s, u)
  {
  }

  lemma {:induction false} BlockRoutineStep(cfg: Config, s: ScanState, at: Loc, args: seq<Operand>)
    requires Inv(s) && !s.verdict.Fail?
    ensures Step(false, s, ExecMemset(cfg, s, at, args)) && Step(false, s, ExecMemcpy(cfg, s, at, args))
  {
    hide Step;
    hide Inv;
    hide ExecBlockAccess;
    SelfStep(s);
    MarkedStep(s, MemsetNoLength);
    MarkedStep(s, MemsetLengthNotConst);
    MarkedStep(s, MemcpyNoSource);
    MarkedStep(s, MemcpyNoLength);
    MarkedStep(s, MemcpyLengthNotConst);
    if |args| >= 3 && ConstU64(args[2]).Some? {
      var n := ConstU64(args[2]).value;
      BlockAccessStep(cfg, s, at, MemsetVc, args[0], n);
      BlockAccessStep(cfg, s, at, MemcpyDestVc, args[0], n);
      var t := ExecBlockAccess(cfg, s, at, MemcpyDestVc, args[0], n);
      if !t.verdict.Fail? {
        StepKeepsInv(s, t);
        BlockAccessStep(cfg, t, at, MemcpySourceVc, args[1], n);
        StepTransitive(s, t, ExecBlockAccess(cfg, t, at, MemcpySourceVc, args[1], n));
      }
    }
  }

  lemma StepKeepsInv(s: ScanState, t: ScanState)
    requires Step(false, s, t)
    ensures Inv(t)
  {
  }

  lemma SelfStep(s: ScanState)
    requires Inv(s)
    ensures Step(false, s, s)
  {
  }

  lemma AsmReports(cfg: Config, s: ScanState, at: Loc, text: string)
    requires !s.verdict.Fail?
    ensures SameHeap(s, ExecAsm(cfg, s, at, text)) && Reports(s, ExecAsm(cfg, s, at, text))
  {
    hide IsSafeAsm;
    hide VcId;
    hide Ask;
    hide Approves;
  }

  lemma {:induction false} AsmStep(cfg: Config, s: ScanState, at: Loc, text: string)
    requires Inv(s) && !s.verdict.Fail?
    ensures Step(false, s, ExecAsm(cfg, s, at, text))
  {
    hide ExecAsm;
    hide SameHeap;
    hide Reports;
    hide Inv;
    hide Step;
    AsmReports(cfg, s, at, text);
    QuietStep(s, ExecAsm(cfg, s, at, text));
  }

  lemma {:induction false} DmaAllocStep(s: ScanState, at: Loc, args: seq<Operand>, dest: Option<Name>)
    requires Inv(s) && !s.verdict.Fail?
    ensures Step(false, s, ExecDmaAlloc(s, at, args, dest))
  {
    hide VcId;
    hide SizedClass;
    hide Ask;
    if |args| >= 2 && ConstU64(args[1]).Some? {
      AllocateStep(s, ConstU64(args[1]).value, dest, true);
    }
  }

  lemma {:induction false} DmaMapStep(cfg: Config, s: ScanState, at: Loc, args: seq<Operand>)
    requires Inv(s) && !s.verdict.Fail?
    ensures Step(false, s, ExecDmaMap(cfg, s, at, args))
  {
    hide VcId;
    hide SizedClass;
    hide Inv;
    hide CheckAccess;
    hide Settle;
    if |args| >= 3 && ConstU64(args[2]).Some? {
      var n, ptr := ConstU64(args[2]).value, args[1];
      if ptr.Local? && ptr.name in s.ptrs && !s.ptrs[ptr.name].UnknownPtr? && s.ptrs[ptr.name].id in s.sizes {
        var p := s.ptrs[ptr.name];
        var (t, r) := CheckAccess(cfg, s, s.sizes[p.id], p.offset, n, VcId(at, DmaMapVc), SizedClass("dma_bounds", n));
        CheckAccessQuiet(cfg, s, s.sizes[p.id], p.offset, n, VcId(at, DmaMapVc), SizedClass("dma_bounds", n));
        SettleReports(if r.Safe? then t else t.(dmaVcs := t.dmaVcs + 1), r, DmaMapVc, at);
      }
    }
    QuietStep(s, ExecDmaMap(cfg, s, at, args));
  }

  lemma {:induction false} CallStep(cfg: Config, s: ScanState, at: Loc, callee: Callee, args: seq<Operand>, dest: Option<Name>)
    requires Inv(s) && !s.verdict.Fail?
    ensures Step(IsIommuMap(Call(callee, args, dest)), s, ExecCall(cfg, s, at, callee, args, dest))
  {
    hide Inv;
    if CalleeName(callee).Some? {
      RoutineByName(Call(callee, args, dest));
    }
    hide RoutineNamed;
    hide ExecAsm;
    hide ExecKmalloc;
    hide ExecKcalloc;
    hide ExecKfree;
    hide ExecMemset;
    hide ExecMemcpy;
    hide ExecDmaAlloc;
    hide ExecDmaMap;
    SelfStep(s);
    if callee.Asm? {
      AsmStep(cfg, s, at, callee.text);
    }
    AllocatorStep(s, args, dest);
    KfreeStep(s, at, args);
    BlockRoutineStep(cfg, s, at, args);
    DmaAllocStep(s, at, args, dest);
    DmaMapStep(cfg, s, at, args);
    IommuStep(s);
  }

  lemma IommuStep(s: ScanState)
    requires Inv(s)
    ensures Step(true, s, ExecIommuMap(s))
  {
  }

  lemma {:induction false} GepStep(cfg: Config, s: ScanState, base: Operand, indices: seq<Operand>, dest: Name)
    requires Inv(s) && !s.verdict.Fail?
    ensures Step(false, s, ExecGep(cfg, s, base, indices, dest))
  {
    hide GepOffset;
    hide Inv;
    hide Step;
    var lost := SetPtr(s, dest, UnknownPtr);
    SetPtrStep(s, dest, UnknownPtr);
    MarkedAfter(s, lost, GepBaseNotLocal);
    MarkedAfter(s, lost, GepUnsupported(false));
    MarkedAfter(s, lost, GepUnsupported(true));
    if base.Local? {
      var p := UnknownPtr;
      if base.name in s.ptrs {
        p := s.ptrs[base.name];
        KnownPtr(s, base.name);
      } else if base.name in s.slots {
        p := s.slots[base.name];
        KnownSlot(s, base.name);
      }
      if !p.UnknownPtr? {
        var o := GepOffset(base, indices, p.offset, cfg.defs);
        if o.Some? {
          SetPtrStep(s, dest, p.(offset := o.value));
        }
      }
    }
  }

  lemma {:induction false} CastStep(s: ScanState, op: Operand, dest: Name)
    requires Inv(s) && !s.verdict.Fail?
    ensures Step(false, s, ExecPtrToInt(s, op, dest))
    ensures Step(false, s, ExecIntToPtr(s, op, dest))
    ensures Step(false, s, ExecBitCast(s, op, dest))
  {
    hide Inv;
    hide Step;
    SetPtrStep(s, dest, UnknownPtr);
    SetIntStep(s, dest, UnknownInt);
    MarkedAfter(s, SetPtr(s, dest, UnknownPtr), IntToPtrNotLocal);
    MarkedAfter(s, SetPtr(s, dest, UnknownPtr), BitCastNotLocal);
    MarkedAfter(s, SetInt(s, dest, UnknownInt), PtrToIntNotLocal);
    if op.Local? && op.name in s.ptrs {
      var p := s.ptrs[op.name];
      KnownPtr(s, op.name);
      SetPtrStep(s, dest, p);
      if p.KmallocPtr? {
        SetIntStep(s, dest, PtrOffset(p.id, p.offset));
      }
    }
    if op.Local? && op.name in s.ints && s.ints[op.name].PtrOffset? {
      KnownInt(s, op);
      SetPtrStep(s, dest, KmallocPtr(s.ints[op.name].id, s.ints[op.name].offset));
    }
  }

  lemma {:induction false} AddStep(s: ScanState, op0: Operand, op1: Operand, dest: Name)
    requires Inv(s) && !s.verdict.Fail?
    ensures Step(false, s, ExecAdd(s, op0, op1, dest))
  {
    hide Inv;
    hide Step;
    var l, r := IntAt(s, op0), IntAt(s, op1);
    SelfStep(s);
    SetIntStep(s, dest, UnknownInt);
    MarkedAfter(s, SetInt(s, dest, UnknownInt), AddUnsupported);
    if HoldsOffset(l) && ConstU64(op1).Some? {
      KnownInt(s, op0);
      SetIntStep(s, dest, PtrOffset(l.value.id, l.value.offset + ConstU64(op1).value));
    } else if HoldsOffset(r) && ConstU64(op0).Some? {
      KnownInt(s, op1);
      SetIntStep(s, dest, PtrOffset(r.value.id, r.value.offset + ConstU64(op0).value));
    }
  }

  lemma {:induction false} SubStep(s: ScanState, op0: Operand, op1: Operand, dest: Name)
    requires Inv(s) && !s.verdict.Fail?
    ensures Step(false, s, ExecSub(s, op0, op1, dest))
  {
    hide Inv;
    hide Step;
    var l, r := IntAt(s, op0), IntAt(s, op1);
    var t := s;
    SelfStep(s);
    if HoldsOffset(l) && ConstU64(op1).Some? {
      KnownInt(s, op0);
      var v := PtrOffset(l.value.id, l.value.offset - ConstU64(op1).value);
      t := SetInt(s, dest, v);
      SetIntStep(s, dest, v);
    } else if l.Some? || r.Some? {
      t := Marked(SetInt(s, dest, UnknownInt), SubUnsupported);
      SetIntStep(s, dest, UnknownInt);
      MarkedAfter(s, SetInt(s, dest, UnknownInt), SubUnsupported);
    }
    MarkedAfter(s, t, SubPointerRhs);
  }

  lemma IrqRaceReports(s: ScanState, at: Loc, k: VcKind, id: nat)
    requires !s.verdict.Fail?
    ensures var t := ExecIrqRace(s, at, k, id);
      SameHeap(s, t) && Reports(s, t) && !t.verdict.Pass?
  {
    hide VcId;
    hide IrqClass;
    hide Ask;
    hide Approves;
  }

  lemma {:induction false} SizedAccessReports(cfg: Config, s: ScanState, at: Loc, k: VcKind, id: nat, offset: int, n: U64)
    requires !s.verdict.Fail? && id in s.sizes
    ensures var t := ExecSizedAccess(cfg, s, at, k, id, offset, n);
      SameHeap(s, t) && Reports(s, t) && (cfg.irqRisk ==> !t.verdict.Pass?)
  {
    hide CheckBounds;
    hide ExecIrqRace;
    hide SizedClass;
    hide KindText;
    var t := CheckBounds(cfg, s, at, k, id, offset, n, SizedClass(KindText(k), n));
    CheckBoundsStep(cfg, s, at, k, id, offset, n, SizedClass(KindText(k), n));
    if !t.verdict.Fail? {
      IrqRaceReports(t, at, if k.StoreVc? then IrqStoreVc else IrqLoadVc, id);
    }
  }

  lemma {:induction false} TypedAccessReports(cfg: Config, s: ScanState, at: Loc, k: VcKind, id: nat, offset: int, size: Option<U64>)
    requires !s.verdict.Fail? && id in s.sizes
    ensures var t := ExecTypedAccess(cfg, s, at, k, id, offset, size);
      SameHeap(s, t) && Reports(s, t) && (cfg.irqRisk ==> !t.verdict.Pass?)
  {
    hide ExecSizedAccess;
    if size.Some? {
      SizedAccessReports(cfg, s, at, k, id, offset, size.value);
    }
  }

  lemma {:induction false} AccessReports(cfg: Config, s: ScanState, at: Loc, k: VcKind, p: PtrVal, ty: Type)
    requires !s.verdict.Fail? && (k.StoreVc? || k.LoadVc?) && (p.UnknownPtr? || p.id in s.sizes)
    ensures var t := ExecAccess(cfg, s, at, k, p, ty);
      SameHeap(s, t) && Reports(s, t) && (cfg.irqRisk && !p.UnknownPtr? ==> !t.verdict.Pass?)
  {
    hide SizeOf;
    hide ExecTypedAccess;
    if !p.UnknownPtr? && p.id !in s.freed {
      TypedAccessReports(cfg, s, at, k, p.id, p.offset, SizeOf(ty, cfg.defs));
    }
  }

  lemma {:induction false} AccessStep(cfg: Config, s: ScanState, at: Loc, k: VcKind, p: PtrVal, ty: Type)
    requires Inv(s) && !s.verdict.Fail? && (k.StoreVc? || k.LoadVc?) && PtrOk(s.counter, s.dmaIds, p)
    ensures Step(false, s, ExecAccess(cfg, s, at, k, p, ty))
    ensures cfg.irqRisk && !p.UnknownPtr? ==> !ExecAccess(cfg, s, at, k, p, ty).verdict.Pass?
  {
    hide ExecAccess;
    hide SameHeap;
    hide Reports;
    hide Step;
    AccessReports(cfg, s, at, k, p, ty);
    QuietStep(s, ExecAccess(cfg, s, at, k, p, ty));
  }

  lemma {:induction false} StoreStep(cfg: Config, s: ScanState, at: Loc, address: Operand, value: Operand)
    requires Inv(s) && !s.verdict.Fail?
    ensures Step(false, s, ExecStore(cfg, s, at, address, value))
    ensures cfg.irqRisk && IsTrackedAccess(Store(address, value), s) ==>
      !ExecStore(cfg, s, at, address, value).verdict.Pass?
  {
    hide ExecAccess;
    if address.Local? {
      var t := RecordSpill(s, address.name, value);
      assert Step(false, s, t);
      if address.name in t.ptrs {
        AccessStep(cfg, t, at, StoreVc, t.ptrs[address.name], TypeOf(value));
      }
    }
  }

  lemma {:induction false} LoadStep(cfg: Config, s: ScanState, at: Loc, address: Operand, ty: Type, dest: Name)
    requires Inv(s) && !s.verdict.Fail?
    ensures Step(false, s, ExecLoad(cfg, s, at, address, ty, dest))
    ensures cfg.irqRisk && IsTrackedAccess(Load(address, ty, dest), s) ==>
      !ExecLoad(cfg, s, at, address, ty, dest).verdict.Pass?
  {
    hide ExecAccess;
    if address.Local? {
      var t := RecoverSpill(s, address.name, dest);
      assert Step(false, s, t);
      if address.name in t.ptrs {
        AccessStep(cfg, t, at, LoadVc, t.ptrs[address.name], ty);
      }
    }
  }

  /** A load or store that reaches the access check with a pointer the scan follows. */
  predicate IsTrackedAccess(instr: Instr, s: ScanState) {
    && (instr.Store? || instr.Load?)
    && instr.address.Local?
    && var t := if instr.Load? then RecoverSpill(s, instr.address.name, instr.dest) else s;
       instr.address.name in t.ptrs && !t.ptrs[instr.address.name].UnknownPtr?
  }

  lemma {:induction false} TrackedAccessReports(cfg: Config, s: ScanState, at: Loc, instr: Instr)
    requires Inv(s) && !s.verdict.Fail? && cfg.irqRisk && IsTrackedAccess(instr, s)
    ensures !Exec(cfg, at, instr, s).verdict.Pass?
  {
    hide Inv;
    hide Step;
    hide ExecStore;
    hide ExecLoad;
    match instr
    case Store(address, value) => StoreStep(cfg, s, at, address, value);
    case Load(address, ty, dest) => LoadStep(cfg, s, at, address, ty, dest);
  }

  /** Every instruction keeps the invariant, climbs, and does only the DMA bookkeeping it should. */
  lemma {:induction false} ExecStep(cfg: Config, at: Loc, instr: Instr, s: ScanState)
    requires Inv(s) && !s.verdict.Fail?
    ensures Step(IsIommuMap(instr), s, Exec(cfg, at, instr, s))
  {
    hide ExecCall;
    hide ExecGep;
    hide RoutineNamed;
    match instr
    case Alloca(slot) =>
    case Call(callee, args, result) => CallStep(cfg, s, at, callee, args, result);
    case GetElementPtr(base, indices, dest) => GepStep(cfg, s, base, indices, dest);
    case PtrToInt(op, dest) => CastStep(s, op, dest);
    case IntToPtr(op, dest) => CastStep(s, op, dest);
    case Add(op0, op1, dest) => AddStep(s, op0, op1, dest);
    case Sub(op0, op1, dest) => SubStep(s, op0, op1, dest);
    case BitCast(op, dest) => CastStep(s, op, dest);
    case Store(address, value) => StoreStep(cfg, s, at, address, value);
    case Load(address, ty, dest) => LoadStep(cfg, s, at, address, ty, dest);
    case OtherInstr =>
  }

  // ------------------------------------------------------------ whole runs

  lemma InitialInv(gate: GateState)
    ensures Inv(InitialState(gate))
  {
  }

  lemma ReportsTransitive(s: ScanState, t: ScanState, u: ScanState)
    requires Reports(s, t) && Reports(t, u)
    ensures Reports(s, u)
  {
  }

  /** The invariant holds after every run, and the run as a whole only climbs. */
  lemma {:induction false} RunKeeps(cfg: Config, sites: seq<Site>, s: ScanState)
    requires Inv(s)
    ensures Inv(RunSites(cfg, sites, s)) && Reports(s, RunSites(cfg, sites, s))
  {
    hide Inv;
    hide Exec;
    hide IsIommuMap;
    if sites != [] && !s.verdict.Fail? {
      var t := Exec(cfg, sites[0].at, sites[0].instr, s);
      ExecStep(cfg, sites[0].at, sites[0].instr, s);
      RunKeeps(cfg, sites[1..], t);
      ReportsTransitive(s, t, RunSites(cfg, sites[1..], t));
    }
  }

  /** Every state the scan of a module can reach satisfies the invariant, and is never short of an allocation's size. */
  lemma {:induction false} ReachableStates(cfg: Config, sites: seq<Site>, n: nat, gate: GateState)
    requires n <= |sites|
    ensures var s := RunSites(cfg, sites[..n], InitialState(gate));
      Inv(s) && s.verdict != Unknown(MissingMetadata)
  {
    hide RunSites;
    InitialInv(gate);
    RunKeeps(cfg, sites[..n], InitialState(gate));
  }

  /** A longer stream never lowers the verdict; once a prefix fails, nothing after it has any effect. */
  lemma {:induction false} FailureIsFinal(cfg: Config, a: seq<Site>, b: seq<Site>, gate: GateState)
    ensures var s, t := RunSites(cfg, a, InitialState(gate)), RunSites(cfg, a + b, InitialState(gate));
      Climbs(s.verdict, t.verdict) && (s.verdict.Fail? ==> t == s)
  {
    var s := RunSites(cfg, a, InitialState(gate));
    RunSitesConcat(cfg, a, b, InitialState(gate));
    if !s.verdict.Fail? {
      InitialInv(gate);
      RunKeeps(cfg, a, InitialState(gate));
      RunKeeps(cfg, b, s);
    }
  }

  /** The same for modules: appending functions to a failing module changes nothing the scan computed. */
  lemma {:induction false} FailingModuleIsFinal(cfg: Config, fs: seq<Function>, more: seq<Function>, gate: GateState)
    requires RunModule(cfg, fs, 0, InitialState(gate)).verdict.Fail?
    ensures RunModule(cfg, fs + more, 0, InitialState(gate)) == RunModule(cfg, fs, 0, InitialState(gate))
  {
    ModuleIsFlat(cfg, fs, 0, InitialState(gate));
    ModuleIsFlat(cfg, fs + more, 0, InitialState(gate));
    SitesConcat(fs, more, 0);
    FailureIsFinal(cfg, ModuleSites(fs, 0), ModuleSites(more, 0), gate);
  }

  lemma {:induction false} SitesConcat(fs: seq<Function>, more: seq<Function>, k: nat)
    requires k <= |fs|
    ensures ModuleSites(fs + more, k) == ModuleSites(fs, k) + ModuleSites(more, 0)
    decreases |fs| - k
  {
    hide FunctionSites;
    if k < |fs| {
      assert (fs + more)[k] == fs[k];
      SitesConcat(fs, more, k + 1);
    } else {
      SitesShift(fs, more, 0);
    }
  }

  lemma {:induction false} SitesShift(fs: seq<Function>, more: seq<Function>, k: nat)
    requires k <= |more|
    ensures ModuleSites(fs + more, |fs| + k) == ModuleSites(more, k)
    decreases |more| - k
  {
    hide FunctionSites;
    if k < |more| {
      assert (fs + more)[|fs| + k] == more[k];
      SitesShift(fs, more, k + 1);
    }
  }

  // ------------------------------------------------------------ races and inline assembly

  /** A scan that reported an IRQ race or opaque assembly never passes. */
  lemma {:induction false} ReportedMeansNotPassed(cfg: Config, fs: seq<Function>, gate: GateState, v: Verdict)
    requires var s := RunModule(cfg, fs, 0, InitialState(gate));
      (s.irqVcs > 0 || s.asmVcs > 0) && IsOutcome(cfg, s, v)
    ensures !v.Pass?
  {
    ModuleIsFlat(cfg, fs, 0, InitialState(gate));
    InitialInv(gate);
    RunKeeps(cfg, ModuleSites(fs, 0), InitialState(gate));
  }

  /** The scan reaches instruction `n` of the stream and follows the pointer it accesses. */
  predicate ReachesTrackedAccess(cfg: Config, sites: seq<Site>, n: nat, gate: GateState)
    requires n < |sites|
  {
    var s := RunSites(cfg, sites[..n], InitialState(gate));
    !s.verdict.Fail? && IsTrackedAccess(sites[n].instr, s)
  }

  /** With an interrupt handler that frees, one tracked load or store is enough to deny a pass. */
  lemma {:induction false} RacyAccessMeansNotPassed(cfg: Config, sites: seq<Site>, n: nat, gate: GateState)
    requires cfg.irqRisk && n < |sites| && ReachesTrackedAccess(cfg, sites, n, gate)
    ensures !RunSites(cfg, sites, InitialState(gate)).verdict.Pass?
  {
    hide Exec;
    hide Inv;
    hide IsTrackedAccess;
    var x := sites[n];
    var s := RunSites(cfg, sites[..n], InitialState(gate));
    var t := Exec(cfg, x.at, x.instr, s);
    InitialInv(gate);
    RunKeeps(cfg, sites[..n], InitialState(gate));
    TrackedAccessReports(cfg, s, x.at, x.instr);
    ExecStep(cfg, x.at, x.instr, s);
    RunKeeps(cfg, sites[n + 1..], t);
    assert sites == sites[..n] + sites[n..] && sites[n..][1..] == sites[n + 1..];
    RunSitesConcat(cfg, sites[..n], sites[n..], InitialState(gate));
  }
}
