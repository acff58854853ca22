/** The three counts a verdict reports beside the gate's: inline assembly, interrupt races, DMA. */
module Counts {
  import opened Common
  import opened Types
  import opened TypeSize
  import opened Ir
  import opened Gep
  import opened Gate
  import opened Scan
  import opened ScanFacts
  import opened Iommu
  import opened Verdicts

  function Bit(b: bool): nat { if b then 1 else 0 }

  /** Inline assembly that is trapped or not known to be safe. */
  predicate CountsAsm(cfg: Config, instr: Instr) {
    instr.Call? && instr.callee.Asm? && (cfg.asmPolicy.Trap? || !IsSafeAsm(instr.callee.text))
  }

  /** A sized access to a live block that was not found out of bounds, while some handler frees. */
  predicate CountsRace(cfg: Config, s: ScanState, at: Loc, instr: Instr) {
    var cs := Checks(cfg, s, instr);
    cfg.irqRisk && IsAccess(instr) && cs != [] && cs[0].len.Some? && !Refuted(cfg, s, at, cs[0], s.checks)
  }

  /** A DMA allocation, or the mapping of a known pointer that was not proved in bounds. */
  predicate CountsDma(cfg: Config, s: ScanState, at: Loc, instr: Instr) {
    var cs := Checks(cfg, s, instr);
    || (!cfg.dma.Ignore? && IsDmaAlloc(instr))
    || (IsCallTo(instr, "dma_map_single") && cs != [] && !Proved(cfg, s, at, cs[0], s.checks))
  }

  /** The three counts of an instruction. */
  ghost predicate Counted(cfg: Config, s: ScanState, at: Loc, instr: Instr, t: ScanState) {
    && t.asmVcs == s.asmVcs + Bit(CountsAsm(cfg, instr))
    && t.irqVcs == s.irqVcs + Bit(CountsRace(cfg, s, at, instr))
    && t.dmaVcs == s.dmaVcs + Bit(CountsDma(cfg, s, at, instr))
  }

  predicate SameCounts(s: ScanState, t: ScanState) {
    t.asmVcs == s.asmVcs && t.irqVcs == s.irqVcs && t.dmaVcs == s.dmaVcs
  }

  lemma CheckCounts(cfg: Config, s: ScanState, size: U64, offset: int, len: U64, vc: string, cls: string, k: VcKind, at: Loc)
    ensures var (u, r) := CheckAccess(cfg, s, size, offset, len, vc, cls);
      var ok := s.gate.mode.Off? || vc in s.gate.approved || cls in s.gate.approvedClasses;
      && SameCounts(s, u) && SameCounts(u, Settle(u, r, k, at))
      && (r.Safe? <==> ok && s.checks !in cfg.timeouts && 0 <= offset && offset + len <= size)
  {
    hide VcId;
  }

  lemma BoundsCounts(cfg: Config, s: ScanState, at: Loc, k: VcKind, id: nat, offset: int, len: U64, cls: string)
    ensures SameCounts(s, CheckBounds(cfg, s, at, k, id, offset, len, cls))
  {
    hide CheckAccess;
    hide Settle;
    hide VcId;
    if id in s.sizes {
      CheckCounts(cfg, s, s.sizes[id], offset, len, VcId(at, k), cls, k, at);
    }
  }

  lemma BlockCounts(cfg: Config, s: ScanState, at: Loc, args: seq<Operand>)
    ensures SameCounts(s, ExecMemset(cfg, s, at, args)) && SameCounts(s, ExecMemcpy(cfg, s, at, args))
  {
    hide ExecBlockAccess;
    if IsInt(args, 2) {
      var n := IntValue(args, 2);
      BlockAccessCounts(cfg, s, at, MemsetVc, args[0], n);
      BlockAccessCounts(cfg, s, at, MemcpyDestVc, args[0], n);
      BlockAccessCounts(cfg, ExecBlockAccess(cfg, s, at, MemcpyDestVc, args[0], n), at, MemcpySourceVc, args[1], n);
    }
  }

  lemma BlockAccessCounts(cfg: Config, s: ScanState, at: Loc, k: VcKind, op: Operand, n: U64)
    ensures SameCounts(s, ExecBlockAccess(cfg, s, at, k, op, n))
  {
    hide CheckBounds;
    hide SizedClass;
    hide KindText;
    if op.Local? && op.name in s.ptrs && s.ptrs[op.name].KmallocPtr? {
      var p := s.ptrs[op.name];
      BoundsCounts(cfg, s, at, k, p.id, p.offset, n, SizedClass(KindText(k), n));
    }
  }

  lemma {:induction false} DmaMapCounts(cfg: Config, s: ScanState, at: Loc, args: seq<Operand>)
    requires Inv(s)
    ensures var t := ExecDmaMap(cfg, s, at, args);
      && t.asmVcs == s.asmVcs && t.irqVcs == s.irqVcs
      && t.dmaVcs == s.dmaVcs + Bit(
           && IsInt(args, 2) && !PointerOf(s, args[1]).UnknownPtr?
           && !Proved(cfg, s, at, Check(DmaMapVc, PointerOf(s, args[1]).id, PointerOf(s, args[1]).offset,
                                        Some(IntValue(args, 2)), false, SizedClass("dma_bounds", IntValue(args, 2))), s.checks))
  {
    hide CheckAccess;
    hide SizedClass;
    hide VcId;
    if IsInt(args, 2) && !PointerOf(s, args[1]).UnknownPtr? {
      var p, n := PointerOf(s, args[1]), IntValue(args, 2);
      KnownPtr(s, args[1].name);
      assert p.id in s.sizes;
      hide Inv;
      CheckCounts(cfg, s, s.sizes[p.id], p.offset, n, VcId(at, DmaMapVc), SizedClass("dma_bounds", n), DmaMapVc, at);
    }
  }

  lemma AllocatorCounts(s: ScanState, args: seq<Operand>, dest: Option<Name>)
    ensures SameCounts(s, ExecKmalloc(s, args, dest)) && SameCounts(s, ExecKcalloc(s, args, dest))
  {
    hide CheckedMul;
  }

  lemma KfreeCounts(s: ScanState, at: Loc, args: seq<Operand>)
    ensures SameCounts(s, ExecKfree(s, at, args))
  {
  }

  lemma DmaAllocCounts(s: ScanState, at: Loc, args: seq<Operand>, dest: Option<Name>)
    ensures var t := ExecDmaAlloc(s, at, args, dest);
      t.asmVcs == s.asmVcs && t.irqVcs == s.irqVcs && t.dmaVcs == s.dmaVcs + Bit(IsInt(args, 1))
  {
    hide VcId;
    hide Ask;
    hide SizedClass;
    hide KindText;
  }

  lemma AsmCounts(cfg: Config, s: ScanState, at: Loc, text: string)
    ensures var t := ExecAsm(cfg, s, at, text);
      && t.irqVcs == s.irqVcs && t.dmaVcs == s.dmaVcs
      && t.asmVcs == s.asmVcs + Bit(cfg.asmPolicy.Trap? || !IsSafeAsm(text))
  {
    hide IsSafeAsm;
    hide VcId;
    hide Ask;
    hide Approves;
  }

  lemma {:induction false} DmaMapCounted(cfg: Config, s: ScanState, at: Loc, instr: Instr)
    requires Inv(s) && IsCallTo(instr, "dma_map_single") && !s.verdict.Fail?
    ensures Counted(cfg, s, at, instr, ExecCall(cfg, s, at, instr.callee, instr.args, instr.result))
  {
    RoutineByName(instr);
    OneName(instr);
    DmaMapCounts(cfg, s, at, instr.args);
    hide RoutineNamed;
    hide ExecDmaMap;
    hide IsSafeAsm;
    hide SizedClass;
    hide BlockCheck;
    hide Proved;
    hide Inv;
  }

  lemma {:induction false} PlainCallCounted(cfg: Config, s: ScanState, at: Loc, instr: Instr)
    requires instr.Call? && !instr.callee.Asm? && !IsCallTo(instr, "dma_map_single") && !s.verdict.Fail?
    ensures Counted(cfg, s, at, instr, ExecCall(cfg, s, at, instr.callee, instr.args, instr.result))
  {
    if CalleeName(instr.callee).Some? {
      RoutineByName(instr);
    }
    var args := instr.args;
    AllocatorCounts(s, args, instr.result);
    KfreeCounts(s, at, args);
    BlockCounts(cfg, s, at, args);
    DmaAllocCounts(s, at, args, instr.result);
    hide RoutineNamed;
    hide ExecKmalloc;
    hide ExecKcalloc;
    hide ExecKfree;
    hide ExecMemset;
    hide ExecMemcpy;
    hide ExecDmaAlloc;
    hide Checks;
  }

  lemma {:induction false} AsmCounted(cfg: Config, s: ScanState, at: Loc, instr: Instr)
    requires instr.Call? && instr.callee.Asm? && !s.verdict.Fail?
    ensures Counted(cfg, s, at, instr, ExecCall(cfg, s, at, instr.callee, instr.args, instr.result))
  {
    AsmCounts(cfg, s, at, instr.callee.text);
    hide ExecAsm;
    hide IsSafeAsm;
    hide Checks;
  }

  lemma {:induction false} CallCounted(cfg: Config, s: ScanState, at: Loc, instr: Instr)
    requires Inv(s) && instr.Call? && !s.verdict.Fail?
    ensures Counted(cfg, s, at, instr, ExecCall(cfg, s, at, instr.callee, instr.args, instr.result))
  {
    hide Counted;
    hide ExecCall;
    hide Inv;
    if instr.callee.Asm? {
      AsmCounted(cfg, s, at, instr);
    } else if IsCallTo(instr, "dma_map_single") {
      DmaMapCounted(cfg, s, at, instr);
    } else {
      PlainCallCounted(cfg, s, at, instr);
    }
  }

  lemma {:induction false} SizedAccessCounts(cfg: Config, s: ScanState, at: Loc, k: VcKind, p: PtrVal, n: U64)
    requires !s.verdict.Fail? && !p.UnknownPtr? && p.id in s.sizes && p.id !in s.freed
    ensures var t, c := ExecSizedAccess(cfg, s, at, k, p.id, p.offset, n), TypedCheck(k, p, Some(n))[0];
      && t.asmVcs == s.asmVcs && t.dmaVcs == s.dmaVcs
      && t.irqVcs == s.irqVcs + Bit(cfg.irqRisk && !Refuted(cfg, s, at, c, s.checks))
  {
    hide CheckBounds;
    hide ExecIrqRace;
    hide SizedClass;
    hide KindText;
    hide Proved;
    hide Refuted;
    var c := TypedCheck(k, p, Some(n))[0];
    BoundsDecided(cfg, s, at, c);
    BoundsCounts(cfg, s, at, k, p.id, p.offset, n, c.cls);
    var t := CheckBounds(cfg, s, at, k, p.id, p.offset, n, c.cls);
    assert t.verdict.Fail? <==> Refuted(cfg, s, at, [c][0], Ordinal(s, at, [c], 0));
    RaceCounts(t, at, if k.StoreVc? then IrqStoreVc else IrqLoadVc, p.id);
  }

  lemma RaceCounts(s: ScanState, at: Loc, k: VcKind, id: nat)
    ensures var t := ExecIrqRace(s, at, k, id); t.asmVcs == s.asmVcs && t.dmaVcs == s.dmaVcs && t.irqVcs == s.irqVcs + 1
  {
    hide VcId;
    hide IrqClass;
    hide Ask;
    hide Approves;
  }

  lemma {:induction false} AccessCounts(cfg: Config, s: ScanState, at: Loc, k: VcKind, p: PtrVal, ty: Type)
    requires Inv(s) && !s.verdict.Fail? && (k.StoreVc? || k.LoadVc?) && PtrOk(s.counter, s.dmaIds, p)
    ensures var t, cs := ExecAccess(cfg, s, at, k, p, ty), TypedCheck(k, p, SizeOf(ty, cfg.defs));
      && t.asmVcs == s.asmVcs && t.dmaVcs == s.dmaVcs
      && t.irqVcs == s.irqVcs + Bit(cfg.irqRisk && cs != [] && cs[0].len.Some? && !Refuted(cfg, s, at, cs[0], s.checks))
  {
    assert !p.UnknownPtr? ==> p.id in s.sizes;
    hide Inv;
    hide SizeOf;
    hide ExecSizedAccess;
    hide SizedClass;
    hide KindText;
    hide InBounds;
    hide Cleared;
    if !p.UnknownPtr? && p.id !in s.freed && SizeOf(ty, cfg.defs).Some? {
      SizedAccessCounts(cfg, s, at, k, p, SizeOf(ty, cfg.defs).value);
    }
  }

  /** Every instruction counts a race, an assembly or a DMA condition exactly when it should. */
  lemma {:induction false} ExecCounted(cfg: Config, s: ScanState, at: Loc, instr: Instr)
    requires Inv(s) && !s.verdict.Fail?
    ensures Counted(cfg, s, at, instr, Exec(cfg, at, instr, s))
  {
    match instr
    case Call(_, _, _) => CallCounted(cfg, s, at, instr);
    case Store(address, value) => StoreCounted(cfg, s, at, instr);
    case Load(address, ty, dest) => LoadCounted(cfg, s, at, instr);
    case _ => OtherCounted(cfg, s, at, instr);
  }

  lemma OtherCounted(cfg: Config, s: ScanState, at: Loc, instr: Instr)
    requires !instr.Call? && !IsAccess(instr)
    ensures Counted(cfg, s, at, instr, Exec(cfg, at, instr, s))
  {
    hide ExecGep;
    hide ExecAdd;
    hide ExecSub;
    match instr
    case GetElementPtr(base, indices, dest) => GepCounts(cfg, s, base, indices, dest);
    case Add(op0, op1, dest) => SumCounts(s, op0, op1, dest);
    case Sub(op0, op1, dest) => SumCounts(s, op0, op1, dest);
    case _ =>
  }

  lemma GepCounts(cfg: Config, s: ScanState, base: Operand, indices: seq<Operand>, dest: Name)
    ensures SameCounts(s, ExecGep(cfg, s, base, indices, dest))
  {
    hide GepOffset;
  }

  lemma SumCounts(s: ScanState, op0: Operand, op1: Operand, dest: Name)
    ensures SameCounts(s, ExecAdd(s, op0, op1, dest)) && SameCounts(s, ExecSub(s, op0, op1, dest))
  {
  }

  lemma {:induction false} StoreCounted(cfg: Config, s: ScanState, at: Loc, instr: Instr)
    requires Inv(s) && !s.verdict.Fail? && instr.Store?
    ensures Counted(cfg, s, at, instr, Exec(cfg, at, instr, s))
  {
    hide ExecAccess;
    hide SizeOf;
    hide TypedCheck;
    hide VcId;
    var p, n := PointerOf(s, instr.address), SizeOf(TypeOf(instr.value), cfg.defs);
    TypedCheckEmpty(StoreVc, p, n);
    if instr.address.Local? && instr.address.name in s.ptrs {
      var u := RecordSpill(s, instr.address.name, instr.value);
      assert Inv(u);
      AccessCounts(cfg, u, at, StoreVc, p, TypeOf(instr.value));
    }
  }

  lemma {:induction false} LoadCounted(cfg: Config, s: ScanState, at: Loc, instr: Instr)
    requires Inv(s) && !s.verdict.Fail? && instr.Load?
    ensures Counted(cfg, s, at, instr, Exec(cfg, at, instr, s))
  {
    hide ExecAccess;
    hide SizeOf;
    hide TypedCheck;
    hide VcId;
    var p, n := LoadPointer(s, instr.address, instr.dest), SizeOf(instr.loadedTy, cfg.defs);
    TypedCheckEmpty(LoadVc, p, n);
    if instr.address.Local? {
      var u := RecoverSpill(s, instr.address.name, instr.dest);
      assert Inv(u);
      if instr.address.name in u.ptrs {
        AccessCounts(cfg, u, at, LoadVc, p, instr.loadedTy);
      }
    }
  }
}
