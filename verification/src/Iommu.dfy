/** DMA allocations, `iommu_map`, and the verdict under the require-iommu policy. */
module Iommu {
  import opened Common
  import opened Types
  import opened TypeSize
  import opened Ir
  import opened Gep
  import opened Gate
  import opened Scan
  import opened ScanFacts

  // ------------------------------------------------------------ what is unmapped

  predicate MapsNothing(sites: seq<Site>) {
    forall i :: 0 <= i < |sites| ==> !IsIommuMap(sites[i].instr)
  }

  lemma {:induction false} WithoutIommuMap(cfg: Config, sites: seq<Site>, s: ScanState)
    requires Inv(s) && MapsNothing(sites)
    ensures var t := RunSites(cfg, sites, s); Inv(t) && t.mapped == s.mapped && s.dmaIds <= t.dmaIds
  {
    hide Inv;
    hide Exec;
    hide IsIommuMap;
    if sites != [] && !s.verdict.Fail? {
      ExecStep(cfg, sites[0].at, sites[0].instr, s);
      WithoutIommuMap(cfg, sites[1..], Exec(cfg, sites[0].at, sites[0].instr, s));
    }
  }

  /**
   When a stream ends, the unmapped DMA allocations are exactly those made after the last
   `iommu_map` that was processed.
   */
  lemma {:induction false} UnmappedAfterLastMap(cfg: Config, a: seq<Site>, x: Site, b: seq<Site>, gate: GateState)
    requires IsIommuMap(x.instr) && MapsNothing(b)
    requires !RunSites(cfg, a, InitialState(gate)).verdict.Fail?
    ensures var s, t := RunSites(cfg, a, InitialState(gate)), RunSites(cfg, a + [x] + b, InitialState(gate));
      Unmapped(t) == t.dmaIds - s.dmaIds && t.mapped == s.dmaIds && t.mapped <= t.dmaIds
  {
    hide Exec;
    hide IsIommuMap;
    var s := RunSites(cfg, a, InitialState(gate));
    var u := Exec(cfg, x.at, x.instr, s);
    InitialInv(gate);
    RunKeeps(cfg, a, InitialState(gate));
    ExecStep(cfg, x.at, x.instr, s);
    RunSitesConcat(cfg, a, [x], InitialState(gate));
    assert [x][1..] == [];
    assert RunSites(cfg, [x], s) == RunSites(cfg, [], u) == u;
    RunSitesConcat(cfg, a + [x], b, InitialState(gate));
    WithoutIommuMap(cfg, b, u);
  }

  /** Without any `iommu_map`, every tracked DMA allocation stays unmapped. */
  lemma {:induction false} UnmappedWithoutMap(cfg: Config, sites: seq<Site>, gate: GateState)
    requires MapsNothing(sites)
    ensures var t := RunSites(cfg, sites, InitialState(gate)); Unmapped(t) == t.dmaIds
  {
    InitialInv(gate);
    WithoutIommuMap(cfg, sites, InitialState(gate));
  }

  // ------------------------------------------------------------ what is allocated

  /** A DMA allocation of constant size. */
  predicate IsDmaAlloc(instr: Instr) {
    && IsCallTo(instr, "dma_alloc_coherent")
    && |instr.args| >= 2 && instr.args[1].Const? && instr.args[1].c.IntConst?
  }

  lemma CheckBoundsDma(cfg: Config, s: ScanState, at: Loc, k: VcKind, id: nat, offset: int, len: U64, cls: string)
    ensures CheckBounds(cfg, s, at, k, id, offset, len, cls).dmaIds == s.dmaIds
  {
    hide CheckAccess;
    if id in s.sizes {
      CheckAccessQuiet(cfg, s, s.sizes[id], offset, len, VcId(at, k), cls);
    }
  }

  lemma BlockAccessDma(cfg: Config, s: ScanState, at: Loc, k: VcKind, op: Operand, len: U64)
    ensures ExecBlockAccess(cfg, s, at, k, op, len).dmaIds == s.dmaIds
  {
    hide CheckBounds;
    if op.Local? && op.name in s.ptrs && s.ptrs[op.name].KmallocPtr? {
      var p := s.ptrs[op.name];
      CheckBoundsDma(cfg, s, at, k, p.id, p.offset, len, SizedClass(KindText(k), len));
    }
  }

  lemma IrqRaceDma(s: ScanState, at: Loc, k: VcKind, id: nat)
    ensures ExecIrqRace(s, at, k, id).dmaIds == s.dmaIds
  {
    hide VcId;
    hide Ask;
    hide Approves;
  }

  lemma SizedAccessDma(cfg: Config, s: ScanState, at: Loc, k: VcKind, id: nat, offset: int, n: U64)
    ensures ExecSizedAccess(cfg, s, at, k, id, offset, n).dmaIds == s.dmaIds
  {
    hide CheckBounds;
    hide ExecIrqRace;
    var cls := SizedClass(KindText(k), n);
    CheckBoundsDma(cfg, s, at, k, id, offset, n, cls);
    IrqRaceDma(CheckBounds(cfg, s, at, k, id, offset, n, cls), at, if k.StoreVc? then IrqStoreVc else IrqLoadVc, id);
  }

  lemma AccessDma(cfg: Config, s: ScanState, at: Loc, k: VcKind, p: PtrVal, ty: Type)
    requires k.StoreVc? || k.LoadVc?
    ensures ExecAccess(cfg, s, at, k, p, ty).dmaIds == s.dmaIds
  {
    hide ExecSizedAccess;
    hide SizeOf;
    if !p.UnknownPtr? && SizeOf(ty, cfg.defs).Some? {
      SizedAccessDma(cfg, s, at, k, p.id, p.offset, SizeOf(ty, cfg.defs).value);
    }
  }

  lemma DmaMapDma(cfg: Config, s: ScanState, at: Loc, args: seq<Operand>)
    ensures ExecDmaMap(cfg, s, at, args).dmaIds == s.dmaIds
  {
    hide CheckAccess;
    hide VcId;
    if |args| >= 3 && ConstU64(args[2]).Some? && args[1].Local? && args[1].name in s.ptrs
       && !s.ptrs[args[1].name].UnknownPtr? && s.ptrs[args[1].name].id in s.sizes {
      var p, n := s.ptrs[args[1].name], ConstU64(args[2]).value;
      CheckAccessQuiet(cfg, s, s.sizes[p.id], p.offset, n, VcId(at, DmaMapVc), SizedClass("dma_bounds", n));
    }
  }

  lemma BlockRoutineDma(cfg: Config, s: ScanState, at: Loc, args: seq<Operand>)
    ensures ExecMemset(cfg, s, at, args).dmaIds == s.dmaIds && ExecMemcpy(cfg, s, at, args).dmaIds == s.dmaIds
  {
    hide ExecBlockAccess;
    if |args| >= 3 && ConstU64(args[2]).Some? {
      var n := ConstU64(args[2]).value;
      BlockAccessDma(cfg, s, at, MemsetVc, args[0], n);
      BlockAccessDma(cfg, s, at, MemcpyDestVc, args[0], n);
      BlockAccessDma(cfg, ExecBlockAccess(cfg, s, at, MemcpyDestVc, args[0], n), at, MemcpySourceVc, args[1], n);
    }
  }

  lemma AllocatorDma(s: ScanState, args: seq<Operand>, dest: Option<Name>)
    ensures ExecKmalloc(s, args, dest).dmaIds == s.dmaIds && ExecKcalloc(s, args, dest).dmaIds == s.dmaIds
  {
    hide CheckedMul;
  }

  lemma KfreeDma(s: ScanState, at: Loc, args: seq<Operand>)
    ensures ExecKfree(s, at, args).dmaIds == s.dmaIds
  {
  }

  lemma DmaAllocDma(s: ScanState, at: Loc, args: seq<Operand>, dest: Option<Name>)
    ensures ExecDmaAlloc(s, at, args, dest).dmaIds
         == if |args| >= 2 && ConstU64(args[1]).Some? then s.dmaIds + {s.counter} else s.dmaIds
  {
    hide VcId;
    hide Ask;
  }

  lemma {:induction false} CallDma(cfg: Config, s: ScanState, at: Loc, callee: Callee, args: seq<Operand>, dest: Option<Name>)
    requires !s.verdict.Fail? && !cfg.dma.Ignore?
    ensures ExecCall(cfg, s, at, callee, args, dest).dmaIds
         == if IsDmaAlloc(Call(callee, args, dest)) then s.dmaIds + {s.counter} else s.dmaIds
  {
    hide ExecKmalloc;
    hide ExecKcalloc;
    hide ExecKfree;
    hide ExecMemset;
    hide ExecMemcpy;
    hide ExecDmaAlloc;
    hide ExecDmaMap;
    hide ExecAsm;
    if CalleeName(callee).Some? {
      RoutineByName(Call(callee, args, dest));
    }
    hide RoutineNamed;
    AllocatorDma(s, args, dest);
    KfreeDma(s, at, args);
    DmaAllocDma(s, at, args, dest);
    BlockRoutineDma(cfg, s, at, args);
    DmaMapDma(cfg, s, at, args);
    if callee.Asm? {
      AsmReports(cfg, s, at, callee.text);
    }
  }

  /** The tracked DMA allocations grow by one at each DMA allocation and at nothing else. */
  lemma {:induction false} ExecDma(cfg: Config, s: ScanState, at: Loc, instr: Instr)
    requires !s.verdict.Fail? && !cfg.dma.Ignore?
    ensures Exec(cfg, at, instr, s).dmaIds == if IsDmaAlloc(instr) then s.dmaIds + {s.counter} else s.dmaIds
  {
    hide ExecCall;
    hide ExecAccess;
    hide GepOffset;
    match instr
    case Call(callee, args, dest) => CallDma(cfg, s, at, callee, args, dest);
    case Store(address, value) =>
      if address.Local? {
        var t := RecordSpill(s, address.name, value);
        if address.name in t.ptrs {
          AccessDma(cfg, t, at, StoreVc, t.ptrs[address.name], TypeOf(value));
        }
      }
    case Load(address, ty, dest) =>
      if address.Local? {
        var t := RecoverSpill(s, address.name, dest);
        if address.name in t.ptrs {
          AccessDma(cfg, t, at, LoadVc, t.ptrs[address.name], ty);
        }
      }
    case _ =>
  }

  // ------------------------------------------------------------ the verdict

  /** A DMA allocation with no `iommu_map` behind it. */
  predicate AllocatesLate(sites: seq<Site>, i: nat)
    requires i < |sites|
  {
    IsDmaAlloc(sites[i].instr) && MapsNothing(sites[i + 1..])
  }

  ghost predicate SomeLateAlloc(sites: seq<Site>) { exists i :: 0 <= i < |sites| && AllocatesLate(sites, i) }

  lemma {:induction false} LateAllocCons(sites: seq<Site>)
    requires sites != []
    ensures MapsNothing(sites) <==> !IsIommuMap(sites[0].instr) && MapsNothing(sites[1..])
    ensures SomeLateAlloc(sites) <==>
      SomeLateAlloc(sites[1..]) || (IsDmaAlloc(sites[0].instr) && MapsNothing(sites[1..]))
  {
    hide IsDmaAlloc;
    hide IsIommuMap;
    var rest := sites[1..];
    assert forall i :: 0 <= i < |rest| ==> rest[i] == sites[i + 1];
    forall i | 0 <= i < |rest| ensures AllocatesLate(rest, i) <==> AllocatesLate(sites, i + 1) {
      assert rest[i + 1..] == sites[i + 2..];
    }
    if SomeLateAlloc(sites) {
      var i :| 0 <= i < |sites| && AllocatesLate(sites, i);
      assert i > 0 ==> AllocatesLate(rest, i - 1);
    }
    if IsDmaAlloc(sites[0].instr) && MapsNothing(rest) {
      assert AllocatesLate(sites, 0);
    }
    if MapsNothing(sites) {
      forall i | 0 <= i < |rest| ensures !IsIommuMap(rest[i].instr) {
        assert rest[i] == sites[i + 1];
      }
    }
  }

  /** After a scan that did not fail something is unmapped exactly when it was allocated after the last map. */
  lemma {:induction false} UnmappedIffLate(cfg: Config, sites: seq<Site>, s: ScanState)
    requires Inv(s) && !cfg.dma.Ignore? && !RunSites(cfg, sites, s).verdict.Fail?
    ensures Unmapped(RunSites(cfg, sites, s)) != {} <==>
      SomeLateAlloc(sites) || (Unmapped(s) != {} && MapsNothing(sites))
    decreases |sites|
  {
    hide Exec;
    hide IsDmaAlloc;
    hide IsIommuMap;
    if sites != [] {
      var x := sites[0];
      var t := Exec(cfg, x.at, x.instr, s);
      ExecStep(cfg, x.at, x.instr, s);
      ExecDma(cfg, s, x.at, x.instr);
      NotBoth(x.instr);
      assert IsDmaAlloc(x.instr) ==> s.counter in Unmapped(t);
      assert IsIommuMap(x.instr) ==> Unmapped(t) == {};
      assert !IsDmaAlloc(x.instr) && !IsIommuMap(x.instr) ==> Unmapped(t) == Unmapped(s);
      LateAllocCons(sites);
      hide Inv;
      hide SomeLateAlloc;
      hide MapsNothing;
      UnmappedIffLate(cfg, sites[1..], t);
    }
  }

  lemma NotBoth(instr: Instr)
    ensures !(IsDmaAlloc(instr) && IsIommuMap(instr))
  {
  }

  /**
   Under require-iommu, a module whose scan did not fail is rejected exactly when some DMA
   allocation of its instruction stream has no `iommu_map` behind it.
   */
  lemma {:induction false} RequireIommuVerdict(cfg: Config, fs: seq<Function>, gate: GateState, v: Verdict)
    requires cfg.dma.RequireIommu?
    requires var s := RunModule(cfg, fs, 0, InitialState(gate)); !s.verdict.Fail? && IsOutcome(cfg, s, v)
    ensures v.Fail? <==> SomeLateAlloc(ModuleSites(fs, 0))
  {
    ModuleIsFlat(cfg, fs, 0, InitialState(gate));
    InitialInv(gate);
    UnmappedIffLate(cfg, ModuleSites(fs, 0), InitialState(gate));
  }
}
