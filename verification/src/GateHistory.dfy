/** The gate over a whole scan: what it saw, what it blocked, and the counts reported from that. */
module GateHistory {
  import opened Common
  import opened Types
  import opened TypeSize
  import opened Ir
  import opened Gep
  import opened Gate
  import opened Scan

  // ------------------------------------------------------------ questions of one instruction

  /** The gate after the questions `ks` about one site, with their classes `cs`. */
  function AskAll(g: GateState, at: Loc, ks: seq<VcKind>, cs: seq<string>): GateState
    requires |ks| == |cs|
    decreases |ks|
  {
    if ks == [] then g else AskAll(Ask(g, VcId(at, ks[0]), cs[0]), at, ks[1..], cs[1..])
  }

  predicate Distinct<T(==)>(s: seq<T>) { forall i, j :: 0 <= i < j < |s| ==> s[i] != s[j] }

  lemma {:induction false} AskOne(g: GateState, at: Loc, k: VcKind, c: string)
    ensures AskAll(g, at, [k], [c]) == Ask(g, VcId(at, k), c)
  {
    hide Ask;
    hide VcId;
    assert [k][1..] == [] && [c][1..] == [];
  }

  lemma {:induction false} AskTwo(g: GateState, at: Loc, j: VcKind, b: string, k: VcKind, c: string)
    ensures AskAll(g, at, [j, k], [b, c]) == Ask(Ask(g, VcId(at, j), b), VcId(at, k), c)
  {
    hide Ask;
    hide VcId;
    AskOne(Ask(g, VcId(at, j), b), at, k, c);
    assert [j, k][1..] == [k] && [b, c][1..] == [c];
  }

  /** `Settle` and `CheckBounds` ask at most one question. */
  lemma CheckBoundsAsks(cfg: Config, s: ScanState, at: Loc, k: VcKind, id: nat, offset: int, len: U64, cls: string)
    ensures CheckBounds(cfg, s, at, k, id, offset, len, cls).gate
         == if id in s.sizes then Ask(s.gate, VcId(at, k), cls) else s.gate
  {
    hide Ask;
    hide VcId;
    hide Approves;
    hide OutOfBounds;
  }

  lemma BlockAccessAsks(cfg: Config, s: ScanState, at: Loc, k: VcKind, op: Operand, len: U64)
    ensures var g := ExecBlockAccess(cfg, s, at, k, op, len).gate;
      g == s.gate || g == Ask(s.gate, VcId(at, k), SizedClass(KindText(k), len))
  {
    hide Ask;
    hide VcId;
    hide CheckBounds;
    hide KindText;
    hide SizedClass;
    if op.Local? && op.name in s.ptrs && s.ptrs[op.name].KmallocPtr? {
      var p := s.ptrs[op.name];
      CheckBoundsAsks(cfg, s, at, k, p.id, p.offset, len, SizedClass(KindText(k), len));
    }
  }

  lemma SizedAccessAsks(cfg: Config, s: ScanState, at: Loc, k: VcKind, id: nat, offset: int, n: U64)
    ensures var g, once := ExecSizedAccess(cfg, s, at, k, id, offset, n).gate, Ask(s.gate, VcId(at, k), SizedClass(KindText(k), n));
      || g == s.gate || g == once
      || g == Ask(once, VcId(at, if k.StoreVc? then IrqStoreVc else IrqLoadVc), IrqClass(id))
  {
    hide Ask;
    hide VcId;
    hide CheckBounds;
    hide KindText;
    hide SizedClass;
    hide IrqClass;
    hide Approves;
    CheckBoundsAsks(cfg, s, at, k, id, offset, n, SizedClass(KindText(k), n));
  }

  lemma TypedAccessAsks(cfg: Config, s: ScanState, at: Loc, k: VcKind, id: nat, offset: int, size: Option<U64>)
    returns (cls: string, irqCls: string)
    ensures var g, once := ExecTypedAccess(cfg, s, at, k, id, offset, size).gate, Ask(s.gate, VcId(at, k), cls);
      || g == s.gate || g == once
      || g == Ask(once, VcId(at, if k.StoreVc? then IrqStoreVc else IrqLoadVc), irqCls)
  {
    hide Ask;
    hide VcId;
    hide ExecSizedAccess;
    hide KindText;
    hide SizedClass;
    hide IrqClass;
    cls, irqCls := "", IrqClass(id);
    if size.Some? {
      cls := SizedClass(KindText(k), size.value);
      SizedAccessAsks(cfg, s, at, k, id, offset, size.value);
    }
  }

  lemma AccessAsks(cfg: Config, s: ScanState, at: Loc, k: VcKind, p: PtrVal, ty: Type)
    returns (irq: VcKind, cls: string, irqCls: string)
    requires k.StoreVc? || k.LoadVc?
    ensures irq == if k.StoreVc? then IrqStoreVc else IrqLoadVc
    ensures var g := ExecAccess(cfg, s, at, k, p, ty).gate;
      || g == s.gate
      || g == Ask(s.gate, VcId(at, k), cls)
      || g == Ask(Ask(s.gate, VcId(at, k), cls), VcId(at, irq), irqCls)
  {
    hide Ask;
    hide VcId;
    hide ExecTypedAccess;
    hide SizeOf;
    irq := if k.StoreVc? then IrqStoreVc else IrqLoadVc;
    cls, irqCls := "", "";
    if !p.UnknownPtr? {
      cls, irqCls := TypedAccessAsks(cfg, s, at, k, p.id, p.offset, SizeOf(ty, cfg.defs));
    }
  }

  lemma AllocatorsAskNothing(s: ScanState, args: seq<Operand>, dest: Option<Name>)
    ensures ExecKmalloc(s, args, dest).gate == s.gate && ExecKcalloc(s, args, dest).gate == s.gate
    ensures ExecIommuMap(s).gate == s.gate
  {
    hide CheckedMul;
  }

  lemma KfreeAsksNothing(s: ScanState, at: Loc, args: seq<Operand>)
    ensures ExecKfree(s, at, args).gate == s.gate
  {
  }

  lemma {:induction false} CallAsks(cfg: Config, s: ScanState, at: Loc, callee: Callee, args: seq<Operand>, dest: Option<Name>)
    returns (ks: seq<VcKind>, cs: seq<string>)
    ensures |ks| == |cs| && Distinct(ks)
    ensures ExecCall(cfg, s, at, callee, args, dest).gate == AskAll(s.gate, at, ks, cs)
  {
    hide Ask;
    hide VcId;
    hide RoutineNamed;
    hide ExecKmalloc;
    hide ExecKcalloc;
    hide ExecKfree;
    hide ExecIommuMap;
    hide ExecMemcpy;
    hide ExecDmaMap;
    hide ExecAsm;
    hide ExecBlockAccess;
    hide SizedClass;
    hide KindText;
    ks, cs := [], [];
    if s.verdict.Fail? {
      return;
    }
    AllocatorsAskNothing(s, args, dest);
    KfreeAsksNothing(s, at, args);
    var name := CalleeName(callee);
    if name.None? {
      if callee.Asm? {
        var asked := AsmAsks(cfg, s, at, callee.text);
        if asked {
          ks, cs := [InlineAsmVc], [ASM_CLASS];
          AskOne(s.gate, at, InlineAsmVc, ASM_CLASS);
        }
      }
      return;
    }
    match RoutineNamed(name.value)
    case Memset =>
      if |args| >= 3 && ConstU64(args[2]).Some? && args[0].Local? {
        var n := ConstU64(args[2]).value;
        BlockAccessAsks(cfg, s, at, MemsetVc, args[0], n);
        if ExecBlockAccess(cfg, s, at, MemsetVc, args[0], n).gate != s.gate {
          ks, cs := [MemsetVc], [SizedClass(KindText(MemsetVc), n)];
          AskOne(s.gate, at, MemsetVc, cs[0]);
        }
      }
    case Memcpy => ks, cs := MemcpyAsks(cfg, s, at, args);
    case DmaAlloc =>
      if !cfg.dma.Ignore? && |args| >= 2 && ConstU64(args[1]).Some? {
        ks, cs := [DmaAllocVc], [SizedClass(KindText(DmaAllocVc), ConstU64(args[1]).value)];
        AskOne(s.gate, at, DmaAllocVc, cs[0]);
      }
    case DmaMap =>
      if !cfg.dma.Ignore? {
        ks, cs := DmaMapAsks(cfg, s, at, args);
      }
    case _ =>
  }

  lemma AsmAsks(cfg: Config, s: ScanState, at: Loc, text: string) returns (asked: bool)
    ensures ExecAsm(cfg, s, at, text).gate == if asked then Ask(s.gate, VcId(at, InlineAsmVc), ASM_CLASS) else s.gate
  {
    hide Ask;
    hide VcId;
    hide IsSafeAsm;
    hide Approves;
    asked := !cfg.asmPolicy.Trap? && !IsSafeAsm(text);
  }

  lemma {:induction false} MemcpyAsks(cfg: Config, s: ScanState, at: Loc, args: seq<Operand>)
    returns (ks: seq<VcKind>, cs: seq<string>)
    ensures |ks| == |cs| && Distinct(ks)
    ensures ExecMemcpy(cfg, s, at, args).gate == AskAll(s.gate, at, ks, cs)
  {
    hide Ask;
    hide VcId;
    hide ExecBlockAccess;
    hide SizedClass;
    hide KindText;
    ks, cs := [], [];
    if |args| >= 3 && ConstU64(args[2]).Some? {
      var n := ConstU64(args[2]).value;
      var d, c := SizedClass(KindText(MemcpyDestVc), n), SizedClass(KindText(MemcpySourceVc), n);
      var t := ExecBlockAccess(cfg, s, at, MemcpyDestVc, args[0], n);
      BlockAccessAsks(cfg, s, at, MemcpyDestVc, args[0], n);
      BlockAccessAsks(cfg, t, at, MemcpySourceVc, args[1], n);
      var g := ExecMemcpy(cfg, s, at, args).gate;
      AskOne(s.gate, at, MemcpyDestVc, d);
      AskOne(s.gate, at, MemcpySourceVc, c);
      AskTwo(s.gate, at, MemcpyDestVc, d, MemcpySourceVc, c);
      if g == s.gate {
      } else if g == AskAll(s.gate, at, [MemcpyDestVc], [d]) {
        ks, cs := [MemcpyDestVc], [d];
      } else if g == AskAll(s.gate, at, [MemcpySourceVc], [c]) {
        ks, cs := [MemcpySourceVc], [c];
      } else {
        ks, cs := [MemcpyDestVc, MemcpySourceVc], [d, c];
      }
    }
  }

  lemma {:induction false} DmaMapAsks(cfg: Config, s: ScanState, at: Loc, args: seq<Operand>)
    returns (ks: seq<VcKind>, cs: seq<string>)
    ensures |ks| == |cs| && Distinct(ks)
    ensures ExecDmaMap(cfg, s, at, args).gate == AskAll(s.gate, at, ks, cs)
  {
    hide Ask;
    hide VcId;
    hide SizedClass;
    hide Approves;
    hide OutOfBounds;
    ks, cs := [], [];
    if |args| >= 3 && ConstU64(args[2]).Some? {
      var ptr := args[1];
      if ptr.Local? && ptr.name in s.ptrs && !s.ptrs[ptr.name].UnknownPtr? && s.ptrs[ptr.name].id in s.sizes {
        ks, cs := [DmaMapVc], [SizedClass("dma_bounds", ConstU64(args[2]).value)];
        AskOne(s.gate, at, DmaMapVc, cs[0]);
      }
    }
  }

  /** Everything an instruction asks is about its own site, each kind at most once. */
  lemma {:induction false} ExecAsks(cfg: Config, at: Loc, instr: Instr, s: ScanState)
    returns (ks: seq<VcKind>, cs: seq<string>)
    ensures |ks| == |cs| && Distinct(ks)
    ensures Exec(cfg, at, instr, s).gate == AskAll(s.gate, at, ks, cs)
  {
    hide Ask;
    hide VcId;
    hide ExecCall;
    hide ExecAccess;
    hide GepOffset;
    ks, cs := [], [];
    match instr
    case Call(callee, args, result) => ks, cs := CallAsks(cfg, s, at, callee, args, result);
    case Store(address, value) =>
      if address.Local? {
        var t := RecordSpill(s, address.name, value);
        if address.name in t.ptrs {
          ks, cs := AccessQuestions(cfg, t, at, StoreVc, t.ptrs[address.name], TypeOf(value));
        }
      }
    case Load(address, ty, dest) =>
      if address.Local? {
        var t := RecoverSpill(s, address.name, dest);
        if address.name in t.ptrs {
          ks, cs := AccessQuestions(cfg, t, at, LoadVc, t.ptrs[address.name], ty);
        }
      }
    case _ =>
  }

  lemma {:induction false} AccessQuestions(cfg: Config, s: ScanState, at: Loc, k: VcKind, p: PtrVal, ty: Type)
    returns (ks: seq<VcKind>, cs: seq<string>)
    requires k.StoreVc? || k.LoadVc?
    ensures |ks| == |cs| && Distinct(ks)
    ensures ExecAccess(cfg, s, at, k, p, ty).gate == AskAll(s.gate, at, ks, cs)
  {
    hide Ask;
    hide VcId;
    hide ExecAccess;
    var irq, cls, irqCls := AccessAsks(cfg, s, at, k, p, ty);
    var g := ExecAccess(cfg, s, at, k, p, ty).gate;
    AskOne(s.gate, at, k, cls);
    AskTwo(s.gate, at, k, cls, irq, irqCls);
    if g == s.gate {
      ks, cs := [], [];
    } else if g == AskAll(s.gate, at, [k], [cls]) {
      ks, cs := [k], [cls];
    } else {
      ks, cs := [k, irq], [cls, irqCls];
    }
  }

  // ------------------------------------------------------------ histories of runs

  /** The identifier was made for one of the sites in `done`. */
  ghost predicate MadeIn(id: string, done: set<Loc>) {
    exists at, k :: at in done && id == VcId(at, k)
  }

  /** The identifier was made for this site, for one of the kinds in `asked`. */
  ghost predicate MadeAt(id: string, at: Loc, asked: set<VcKind>) {
    exists k :: k in asked && id == VcId(at, k)
  }

  ghost predicate FromSites(ids: seq<string>, done: set<Loc>) {
    forall i :: 0 <= i < |ids| ==> MadeIn(ids[i], done)
  }

  lemma FreshId(id: string, at: Loc, k: VcKind, done: set<Loc>, asked: set<VcKind>)
    requires at !in done && k !in asked
    requires MadeIn(id, done) || MadeAt(id, at, asked)
    ensures id != VcId(at, k)
    ensures MadeIn(id, done) || MadeAt(id, at, asked + {k})
  {
    hide VcId;
    if MadeIn(id, done) {
      var p, j :| p in done && id == VcId(p, j);
      if id == VcId(at, k) { VcIdInjective(p, j, at, k); }
    } else {
      var j :| j in asked && id == VcId(at, j);
      if id == VcId(at, k) { VcIdInjective(at, j, at, k); }
      assert j in asked + {k};
    }
  }

  lemma {:induction false} AskAllHistory(g: GateState, at: Loc, ks: seq<VcKind>, cs: seq<string>, done: set<Loc>, asked: set<VcKind>)
    requires |ks| == |cs| && Distinct(ks)
    requires Faithful(g) && Distinct(g.seen)
    requires at !in done
    requires forall i :: 0 <= i < |ks| ==> ks[i] !in asked
    requires forall i :: 0 <= i < |g.seen| ==> MadeIn(g.seen[i], done) || MadeAt(g.seen[i], at, asked)
    ensures var h := AskAll(g, at, ks, cs);
      && Faithful(h) && Distinct(h.seen) && FromSites(h.seen, done + {at})
      && h.mode == g.mode && h.approved == g.approved && h.approvedClasses == g.approvedClasses
    decreases |ks|
  {
    hide VcId;
    hide Faithful;
    hide MadeIn;
    hide MadeAt;
    if ks == [] {
      forall i | 0 <= i < |g.seen| ensures MadeIn(g.seen[i], done + {at}) {
        MadeInLater(g.seen[i], at, done, asked);
      }
    } else {
      var id := VcId(at, ks[0]);
      var h := Ask(g, id, cs[0]);
      AskKeepsFaithful(g, id, cs[0]);
      forall i | 0 <= i < |g.seen|
        ensures g.seen[i] != id && (MadeIn(g.seen[i], done) || MadeAt(g.seen[i], at, asked + {ks[0]}))
      {
        FreshId(g.seen[i], at, ks[0], done, asked);
      }
      assert h.seen == g.seen + [id];
      NewId(at, ks[0], asked);
      AskAllHistory(h, at, ks[1..], cs[1..], done, asked + {ks[0]});
    }
  }

  lemma NewId(at: Loc, k: VcKind, asked: set<VcKind>)
    ensures MadeAt(VcId(at, k), at, asked + {k})
  {
    hide VcId;
    assert k in asked + {k};
  }

  lemma MadeInLater(id: string, at: Loc, done: set<Loc>, asked: set<VcKind>)
    requires MadeIn(id, done) || MadeAt(id, at, asked)
    ensures MadeIn(id, done + {at})
  {
    hide VcId;
    if MadeIn(id, done) {
      var p, j :| p in done && id == VcId(p, j);
      assert p in done + {at};
    } else {
      var j :| j in asked && id == VcId(at, j);
      assert at in done + {at};
    }
  }

  predicate DistinctSites(sites: seq<Site>) {
    forall i, j :: 0 <= i < j < |sites| ==> sites[i].at != sites[j].at
  }

  lemma {:induction false} RunHistory(cfg: Config, sites: seq<Site>, s: ScanState, done: set<Loc>)
    requires DistinctSites(sites) && (forall i :: 0 <= i < |sites| ==> sites[i].at !in done)
    requires Faithful(s.gate) && Distinct(s.gate.seen) && FromSites(s.gate.seen, done)
    ensures var g := RunSites(cfg, sites, s).gate;
      && Faithful(g) && Distinct(g.seen)
      && g.mode == s.gate.mode && g.approved == s.gate.approved && g.approvedClasses == s.gate.approvedClasses
    decreases |sites|
  {
    hide Exec;
    hide VcId;
    hide Faithful;
    hide MadeIn;
    hide MadeAt;
    if sites != [] && !s.verdict.Fail? {
      var x := sites[0];
      var t := Exec(cfg, x.at, x.instr, s);
      var ks, cs := ExecAsks(cfg, x.at, x.instr, s);
      AskAllHistory(s.gate, x.at, ks, cs, done, {});
      RunHistory(cfg, sites[1..], t, done + {x.at});
    }
  }

  lemma {:induction false} AskAllFaithful(g: GateState, at: Loc, ks: seq<VcKind>, cs: seq<string>)
    requires |ks| == |cs| && Faithful(g)
    ensures var h := AskAll(g, at, ks, cs);
      Faithful(h) && h.mode == g.mode && h.approved == g.approved && h.approvedClasses == g.approvedClasses
    decreases |ks|
  {
    hide VcId;
    hide Faithful;
    if ks != [] {
      AskKeepsFaithful(g, VcId(at, ks[0]), cs[0]);
      AskAllFaithful(Ask(g, VcId(at, ks[0]), cs[0]), at, ks[1..], cs[1..]);
    }
  }

  /** Whatever the module, the blocked lists stay the unapproved part of the seen lists. */
  lemma {:induction false} RunFaithful(cfg: Config, sites: seq<Site>, s: ScanState)
    requires Faithful(s.gate)
    ensures var g := RunSites(cfg, sites, s).gate;
      && Faithful(g) && g.mode == s.gate.mode
      && g.approved == s.gate.approved && g.approvedClasses == s.gate.approvedClasses
    decreases |sites|
  {
    hide Exec;
    hide Faithful;
    if sites != [] && !s.verdict.Fail? {
      var x := sites[0];
      var ks, cs := ExecAsks(cfg, x.at, x.instr, s);
      AskAllFaithful(s.gate, x.at, ks, cs);
      RunFaithful(cfg, sites[1..], Exec(cfg, x.at, x.instr, s));
    }
  }

  // ------------------------------------------------------------ modules

  predicate DistinctNames(fs: seq<Function>) {
    forall i, j :: 0 <= i < j < |fs| ==> fs[i].name != fs[j].name
  }

  lemma {:induction false} FunctionSitesDistinct(f: Function, b: nat)
    requires b <= |f.blocks|
    ensures DistinctSites(FunctionSites(f, b))
    ensures forall i :: 0 <= i < |FunctionSites(f, b)| ==>
      FunctionSites(f, b)[i].at.func == f.name && FunctionSites(f, b)[i].at.block >= b
    decreases |f.blocks| - b
  {
    if b < |f.blocks| {
      FunctionSitesDistinct(f, b + 1);
      var head := BlockSites(f.name, b, f.blocks[b], 0);
      assert forall i :: 0 <= i < |head| ==> head[i].at == Loc(f.name, b, i);
    }
  }

  /** The places of a module lie in its functions from `k` on. */
  lemma {:induction false} ModuleSitesNamed(fs: seq<Function>, k: nat, r: seq<Site>)
    requires k <= |fs| && r == ModuleSites(fs, k)
    ensures forall i :: 0 <= i < |r| ==> exists j :: k <= j < |fs| && r[i].at.func == fs[j].name
    decreases |fs| - k
  {
    hide FunctionSites;
    if k < |fs| {
      var head, tail := FunctionSites(fs[k], 0), ModuleSites(fs, k + 1);
      ModuleSitesNamed(fs, k + 1, tail);
      FunctionSitesDistinct(fs[k], 0);
      forall i | 0 <= i < |r| ensures exists j :: k <= j < |fs| && r[i].at.func == fs[j].name {
        if i < |head| {
          assert r[i] == head[i];
        } else {
          assert r[i] == tail[i - |head|];
        }
      }
    }
  }

  lemma {:induction false} ModuleSitesDistinct(fs: seq<Function>, k: nat)
    requires k <= |fs| && DistinctNames(fs)
    ensures DistinctSites(ModuleSites(fs, k))
    decreases |fs| - k
  {
    hide FunctionSites;
    if k < |fs| {
      ModuleSitesDistinct(fs, k + 1);
      FunctionSitesDistinct(fs[k], 0);
      var head, tail := FunctionSites(fs[k], 0), ModuleSites(fs, k + 1);
      ModuleSitesNamed(fs, k + 1, tail);
      forall i | 0 <= i < |tail| ensures tail[i].at.func != fs[k].name {
        var j :| k + 1 <= j < |fs| && tail[i].at.func == fs[j].name;
      }
      assert ModuleSites(fs, k) == head + tail;
    }
  }

  predicate FreshGate(g: GateState) {
    g.seen == [] && g.seenClasses == [] && g.blocked == [] && g.blockedClasses == []
  }

  /**
   After the scan of any module with distinct function names: the blocked lists are the unapproved
   entries of the seen lists, in order; no condition was seen twice; and the distinct counts put
   into the verdict are the lengths of the lists.
   */
  lemma {:induction false} ScanHistory(cfg: Config, fs: seq<Function>, gate: GateState)
    requires FreshGate(gate) && DistinctNames(fs)
    ensures var g := RunModule(cfg, fs, 0, InitialState(gate)).gate;
      && Faithful(g) && Distinct(g.seen) && Distinct(g.blocked)
      && g.mode == gate.mode && g.approved == gate.approved && g.approvedClasses == gate.approvedClasses
      && |SetOf(g.seen)| == |g.seen|
      && |SetOf(g.blocked)| == |g.blocked|
  {
    var s := InitialState(gate);
    ModuleIsFlat(cfg, fs, 0, s);
    ModuleSitesDistinct(fs, 0);
    assert Unapproved(gate, [], []) == [];
    RunHistory(cfg, ModuleSites(fs, 0), s, {});
    var g := RunModule(cfg, fs, 0, s).gate;
    BlockedDistinct(g);
    DistinctCount(g.seen);
    DistinctCount(g.blocked);
  }

  lemma {:induction false} BlockedDistinct(g: GateState)
    requires Faithful(g) && Distinct(g.seen)
    ensures Distinct(g.blocked)
  {
    var u := Unapproved(g, g.seen, g.seenClasses);
    UnapprovedDistinct(g, g.seen, g.seenClasses, u);
    assert |u| == |g.blocked|;
    forall i, j | 0 <= i < j < |g.blocked| ensures g.blocked[i] != g.blocked[j] {
      assert u[i] == Entry(g.blocked[i], g.blockedClasses[i]) && u[j] == Entry(g.blocked[j], g.blockedClasses[j]);
    }
  }

  lemma {:induction false} UnapprovedDistinct(g: GateState, ids: seq<string>, classes: seq<string>, u: seq<Entry>)
    requires |ids| == |classes| && Distinct(ids) && u == Unapproved(g, ids, classes)
    ensures forall i :: 0 <= i < |u| ==> u[i].id in ids
    ensures forall i, j :: 0 <= i < j < |u| ==> u[i].id != u[j].id
  {
    if ids != [] {
      var k := |ids| - 1;
      var v := Unapproved(g, ids[..k], classes[..k]);
      UnapprovedDistinct(g, ids[..k], classes[..k], v);
      assert u == v || u == v + [Entry(ids[k], classes[k])];
      assert ids[k] !in ids[..k];
    }
  }

  // ------------------------------------------------------------ emitted counts

  /** `Vec::dedup`: drop an element equal to the one before it. */
  function Dedup<T(==)>(s: seq<T>): seq<T> {
    if |s| <= 1 then s
    else if s[|s| - 1] == s[|s| - 2] then Dedup(s[..|s| - 1])
    else Dedup(s[..|s| - 1]) + [s[|s| - 1]]
  }

  /** Equal elements stand together, as they do after sorting. */
  predicate Grouped<T(==)>(s: seq<T>) {
    forall i, j, k :: 0 <= i < j < k < |s| && s[i] == s[k] ==> s[j] == s[i]
  }

  /** Byte-lexicographic order. */
  predicate AtMost(a: string, b: string) {
    a == [] || (b != [] && (a[0] < b[0] || (a[0] == b[0] && AtMost(a[1..], b[1..]))))
  }

  lemma {:induction false} AtMostTotal(a: string, b: string)
    ensures AtMost(a, b) || AtMost(b, a)
    ensures AtMost(a, b) && AtMost(b, a) ==> a == b
  {
    if a != [] && b != [] && a[0] == b[0] {
      AtMostTotal(a[1..], b[1..]);
      assert a == [a[0]] + a[1..] && b == [b[0]] + b[1..];
    }
  }

  lemma {:induction false} AtMostTransitive(a: string, b: string, c: string)
    requires AtMost(a, b) && AtMost(b, c)
    ensures AtMost(a, c)
  {
    if a != [] && a[0] == b[0] && b[0] == c[0] {
      AtMostTransitive(a[1..], b[1..], c[1..]);
    }
  }

  predicate Sorted(s: seq<string>) { forall i, j :: 0 <= i < j < |s| ==> AtMost(s[i], s[j]) }

  function Insert(x: string, s: seq<string>): (r: seq<string>)
    requires Sorted(s)
    ensures Sorted(r) && multiset(r) == multiset(s) + multiset{x}
  {
    if s == [] then [x]
    else if AtMost(x, s[0]) then Before(x, s); [x] + s
    else
      AtMostTotal(x, s[0]);
      assert s == [s[0]] + s[1..];
      var r := Insert(x, s[1..]);
      After(s[0], x, s[1..], r);
      [s[0]] + r
  }

  lemma Before(x: string, s: seq<string>)
    requires Sorted(s) && s != [] && AtMost(x, s[0])
    ensures Sorted([x] + s)
  {
    hide AtMost;
    forall j | 0 <= j < |s| ensures AtMost(x, s[j]) {
      if j > 0 {
        AtMostTransitive(x, s[0], s[j]);
      }
    }
  }

  lemma After(y: string, x: string, s: seq<string>, r: seq<string>)
    requires Sorted([y] + s) && AtMost(y, x) && Sorted(r) && multiset(r) == multiset(s) + multiset{x}
    ensures Sorted([y] + r)
  {
    hide AtMost;
    forall j | 0 <= j < |r| ensures AtMost(y, r[j]) {
      assert r[j] in multiset(r);
      if r[j] != x {
        assert r[j] in s;
        var k :| 0 <= k < |s| && s[k] == r[j];
        assert ([y] + s)[k + 1] == r[j] && ([y] + s)[0] == y;
      }
    }
  }

  /** `Vec::sort` */
  function Sort(s: seq<string>): (r: seq<string>)
    ensures Sorted(r) && multiset(r) == multiset(s)
  {
    if s == [] then [] else
    assert s == [s[0]] + s[1..];
    Insert(s[0], Sort(s[1..]))
  }

  lemma {:induction false} SortedIsGrouped(s: seq<string>)
    requires Sorted(s)
    ensures Grouped(s)
  {
    hide AtMost;
    forall i, j, k | 0 <= i < j < k < |s| && s[i] == s[k] ensures s[j] == s[i] {
      AtMostTotal(s[i], s[j]);
    }
  }

  /** A list as `emit_hitl_vcs` writes it. */
  function Emitted(list: seq<string>): seq<string> { Dedup(Sort(list)) }

  /** The emitted list holds every entry of the history once. */
  lemma {:induction false} EmittedOnce(list: seq<string>)
    ensures SetOf(Emitted(list)) == SetOf(list) && |Emitted(list)| == |SetOf(list)|
  {
    var sorted := Sort(list);
    assert forall x :: x in sorted <==> x in multiset(sorted);
    assert forall x :: x in list <==> x in multiset(list);
    assert SetOf(sorted) == SetOf(list);
    SortedIsGrouped(sorted);
    DedupCount(sorted);
    DedupSet(sorted);
  }

  lemma {:induction false} DedupSet<T>(s: seq<T>)
    ensures SetOf(Dedup(s)) == SetOf(s)
  {
    if |s| > 1 {
      var k := |s| - 1;
      DedupSet(s[..k]);
      assert s == s[..k] + [s[k]];
      assert s[..k][k - 1] == s[k - 1];
      assert SetOf(s) == SetOf(s[..k]) + {s[k]};
      if s[k] != s[k - 1] {
        assert SetOf(Dedup(s)) == SetOf(Dedup(s[..k])) + {s[k]};
      } else {
        assert s[k] in s[..k];
      }
    }
  }

  lemma {:induction false} DedupCount<T>(s: seq<T>)
    requires Grouped(s)
    ensures |Dedup(s)| == |SetOf(s)|
  {
    if |s| <= 1 {
      DistinctCount(s);
    } else {
      var k := |s| - 1;
      var p := s[..k];
      DedupCount(p);
      assert s == p + [s[k]];
      if s[k] == s[k - 1] {
        assert p[k - 1] in p;
        assert SetOf(s) == SetOf(p);
      } else {
        assert forall i :: 0 <= i < k - 1 && s[i] == s[k] ==> s[k - 1] == s[i];
        assert s[k] !in p;
        assert SetOf(s) == SetOf(p) + {s[k]};
      }
    }
  }
}
