/**
 `analyze` as it runs: mutable environments, one method per instruction kind, three nested loops
 with breaks. Every method is proved against its function in `Scan`.
 */
module Scanner {
  import opened Common
  import opened Types
  import opened TypeSize
  import opened Ir
  import opened Gep
  import opened Gate
  import opened Scan

  class Analyzer {
    const cfg: ConfigData
    const gate: HitlGate
    var ptrs: map<Name, PtrVal>
    var ints: map<Name, IntVal>
    var sizes: map<nat, U64>
    var freed: set<nat>
    var counter: nat
    var verdict: Verdict
    var slots: map<Name, PtrVal>
    var slotNames: set<Name>
    var asmVcs: nat
    var dmaVcs: nat
    var dmaIds: set<nat>
    var mapped: set<nat>
    var irqVcs: nat
    var checks: nat

    ghost predicate Valid() { Acyclic(cfg.defs) }

    function View(): ScanState
      reads this, gate
    {
      ScanState(ptrs, ints, sizes, freed, counter, verdict, slots, slotNames, asmVcs, dmaVcs,
                dmaIds, mapped, irqVcs, gate.View(), checks)
    }

    constructor (cfg: Config, gate: HitlGate)
      ensures Valid() && this.cfg == cfg && this.gate == gate
      ensures View() == InitialState(gate.View())
    {
      this.cfg, this.gate := cfg, gate;
      ptrs, ints, sizes, slots := map[], map[], map[], map[];
      freed, slotNames, dmaIds, mapped := {}, {}, {}, {};
      counter, asmVcs, dmaVcs, irqVcs, checks := 0, 0, 0, 0, 0;
      verdict := Pass;
    }

    method Mark(why: Reason)
      modifies this`verdict
      ensures View() == Marked(old(View()), why)
    {
      if verdict.Pass? {
        verdict := Unknown(why);
      }
    }

    method CheckOne(size: U64, offset: int, len: U64, vc: string, cls: string) returns (r: Access)
      requires Valid()
      modifies this`checks, gate
      ensures (View(), r) == CheckAccess(cfg, old(View()), size, offset, len, vc, cls)
    {
      var run := gate.ShouldRunSolver(vc, cls);
      if !run {
        return Blocked;
      }
      var ordinal := checks;
      checks := checks + 1;
      if ordinal in cfg.timeouts {
        return Undecided;
      }
      return if offset + len > size || offset < 0 then Oob else Safe;
    }

    method SettleOne(r: Access, k: VcKind, at: Loc) returns (stop: bool)
      modifies this`verdict
      ensures View() == Settle(old(View()), r, k, at)
      ensures stop == r.Oob?
    {
      match r
      case Oob =>
        verdict := Fail(OutOfBoundsAccess(k, at.func));
        return true;
      case Safe =>
        return false;
      case Undecided =>
        Mark(SolverUnknown(k));
        return false;
      case Blocked =>
        Mark(HitlBlocked(k, VcId(at, k)));
        return false;
    }

    method BoundsOf(at: Loc, k: VcKind, id: nat, offset: int, len: U64, cls: string) returns (stop: bool)
      requires Valid() && !verdict.Fail?
      modifies this`verdict, this`checks, gate
      ensures View() == CheckBounds(cfg, old(View()), at, k, id, offset, len, cls)
      ensures stop == verdict.Fail?
    {
      if id !in sizes {
        Mark(MissingMetadata);
        return false;
      }
      var r := CheckOne(sizes[id], offset, len, VcId(at, k), cls);
      stop := SettleOne(r, k, at);
    }

    method NewAllocation(size: U64, dest: Option<Name>, dma: bool)
      modifies this
      ensures View() == Allocate(old(View()), size, dest, dma)
    {
      var id := counter;
      counter := counter + 1;
      sizes := sizes[id := size];
      if dma {
        dmaIds := dmaIds + {id};
      }
      if dest.Some? {
        ptrs := ptrs[dest.value := if dma then DmaPtr(id, 0) else KmallocPtr(id, 0)];
      }
    }

    method DoKmalloc(args: seq<Operand>, dest: Option<Name>)
      modifies this
      ensures View() == ExecKmalloc(old(View()), args, dest)
    {
      if |args| == 0 {
        Mark(KmallocNoSize);
        return;
      }
      var size := ConstU64(args[0]);
      if size.None? {
        Mark(KmallocSizeNotConst);
        return;
      }
      NewAllocation(size.value, dest, false);
    }

    method DoKcalloc(args: seq<Operand>, dest: Option<Name>) returns (stop: bool)
      requires !verdict.Fail?
      modifies this
      ensures View() == ExecKcalloc(old(View()), args, dest)
      ensures stop == verdict.Fail?
    {
      hide CheckedMul;
      if |args| == 0 {
        Mark(KcallocNoCount);
        return false;
      }
      if |args| == 1 {
        Mark(KcallocNoSize);
        return false;
      }
      var n, size := ConstU64(args[0]), ConstU64(args[1]);
      if n.None? || size.None? {
        Mark(KcallocNotConst);
        return false;
      }
      var total := CheckedMul(n.value, size.value);
      if total.None? {
        verdict := Fail(KcallocOverflow);
        return true;
      }
      NewAllocation(total.value, dest, false);
      return false;
    }

    method DoKfree(at: Loc, args: seq<Operand>) returns (stop: bool)
      requires !verdict.Fail?
      modifies this`verdict, this`freed
      ensures View() == ExecKfree(old(View()), at, args)
      ensures stop == verdict.Fail?
    {
      if |args| == 0 {
        Mark(KfreeNoPointer);
        return false;
      }
      if !args[0].Local? {
        Mark(KfreeNotLocal);
        return false;
      }
      var name := args[0].name;
      if name in ptrs && ptrs[name].KmallocPtr? {
        if ptrs[name].id in freed {
          verdict := Fail(DoubleFree(at.func));
          return true;
        }
        freed := freed + {ptrs[name].id};
      }
      return false;
    }

    method BlockAccess(at: Loc, k: VcKind, op: Operand, len: U64) returns (stop: bool)
      requires Valid() && !verdict.Fail?
      modifies this`verdict, this`checks, gate
      ensures View() == ExecBlockAccess(cfg, old(View()), at, k, op, len)
      ensures stop == verdict.Fail?
    {
      hide CheckBounds;
      hide KindText;
      hide SizedClass;
      if op.Local? && op.name in ptrs && ptrs[op.name].KmallocPtr? {
        var p := ptrs[op.name];
        if p.id in freed {
          verdict := Fail(UseAfterFree(k, at.func));
          return true;
        }
        stop := BoundsOf(at, k, p.id, p.offset, len, SizedClass(KindText(k), len));
      } else {
        return false;
      }
    }

    method DoMemset(at: Loc, args: seq<Operand>) returns (stop: bool)
      requires Valid() && !verdict.Fail?
      modifies this`verdict, this`checks, gate
      ensures View() == ExecMemset(cfg, old(View()), at, args)
      ensures stop == verdict.Fail?
    {
      hide ExecBlockAccess;
      if |args| == 0 {
        return false;
      }
      if |args| <= 2 {
        Mark(MemsetNoLength);
        return false;
      }
      if !args[0].Local? {
        return false;
      }
      var len := ConstU64(args[2]);
      if len.None? {
        Mark(MemsetLengthNotConst);
        return false;
      }
      stop := BlockAccess(at, MemsetVc, args[0], len.value);
    }

    method DoMemcpy(at: Loc, args: seq<Operand>) returns (stop: bool)
      requires Valid() && !verdict.Fail?
      modifies this`verdict, this`checks, gate
      ensures View() == ExecMemcpy(cfg, old(View()), at, args)
      ensures stop == verdict.Fail?
    {
      hide ExecBlockAccess;
      if |args| == 0 {
        return false;
      }
      if |args| == 1 {
        Mark(MemcpyNoSource);
        return false;
      }
      if |args| == 2 {
        Mark(MemcpyNoLength);
        return false;
      }
      var len := ConstU64(args[2]);
      if len.None? {
        Mark(MemcpyLengthNotConst);
        return false;
      }
      stop := BlockAccess(at, MemcpyDestVc, args[0], len.value);
      if !stop {
        stop := BlockAccess(at, MemcpySourceVc, args[1], len.value);
      }
    }

    method DoAsm(at: Loc, text: string) returns (stop: bool)
      requires Valid() && !verdict.Fail?
      modifies this`verdict, this`asmVcs, gate
      ensures View() == ExecAsm(cfg, old(View()), at, text)
      ensures stop == verdict.Fail?
    {
      hide IsSafeAsm;
      hide VcId;
      if cfg.asmPolicy.Trap? {
        asmVcs := asmVcs + 1;
        verdict := Fail(AsmTrapped(at.func));
        return true;
      }
      if IsSafeAsm(text) {
        return false;
      }
      asmVcs := asmVcs + 1;
      var vc := VcId(at, InlineAsmVc);
      var run := gate.ShouldRunSolver(vc, ASM_CLASS);
      if !run {
        Mark(HitlBlocked(InlineAsmVc, vc));
      } else {
        Mark(AsmOpaque(at.func, text));
      }
      return false;
    }

    method DoDmaAlloc(at: Loc, args: seq<Operand>, dest: Option<Name>)
      modifies this, gate
      ensures View() == ExecDmaAlloc(old(View()), at, args, dest)
    {
      hide VcId;
      hide SizedClass;
      if |args| <= 1 {
        Mark(DmaAllocNoSize);
        return;
      }
      var size := ConstU64(args[1]);
      if size.None? {
        Mark(DmaAllocSizeNotConst);
        return;
      }
      NewAllocation(size.value, dest, true);
      dmaVcs := dmaVcs + 1;
      var _ := gate.ShouldRunSolver(VcId(at, DmaAllocVc), SizedClass(KindText(DmaAllocVc), size.value));
    }

    method DoDmaMap(at: Loc, args: seq<Operand>) returns (stop: bool)
      requires Valid() && !verdict.Fail?
      modifies this`verdict, this`checks, this`dmaVcs, gate
      ensures View() == ExecDmaMap(cfg, old(View()), at, args)
      ensures stop == verdict.Fail?
    {
      hide VcId;
      hide SizedClass;
      if |args| <= 1 {
        Mark(DmaMapNoPointer);
        return false;
      }
      if |args| == 2 {
        Mark(DmaMapNoSize);
        return false;
      }
      var n := ConstU64(args[2]);
      if n.None? {
        Mark(DmaMapSizeNotConst);
        return false;
      }
      var ptr := args[1];
      if ptr.Local? && ptr.name in ptrs && !ptrs[ptr.name].UnknownPtr? && ptrs[ptr.name].id in sizes {
        var p := ptrs[ptr.name];
        var r := CheckOne(sizes[p.id], p.offset, n.value, VcId(at, DmaMapVc), SizedClass("dma_bounds", n.value));
        if !r.Safe? {
          dmaVcs := dmaVcs + 1;
        }
        stop := SettleOne(r, DmaMapVc, at);
      } else {
        return false;
      }
    }

    method DoIommuMap()
      modifies this`mapped
      ensures View() == ExecIommuMap(old(View()))
    {
      var todo := dmaIds;
      while todo != {}
        invariant todo <= dmaIds
        invariant mapped == old(mapped) + (dmaIds - todo)
        decreases todo
      {
        var id :| id in todo;
        mapped := mapped + {id};
        todo := todo - {id};
      }
    }

    method DoCall(at: Loc, callee: Callee, args: seq<Operand>, dest: Option<Name>) returns (stop: bool)
      requires Valid() && !verdict.Fail?
      modifies this, gate
      ensures View() == ExecCall(cfg, old(View()), at, callee, args, dest)
      ensures stop == verdict.Fail?
    {
      hide RoutineNamed;
      stop := false;
      var name := CalleeName(callee);
      if name.None? {
        if callee.Asm? {
          hide ExecAsm;
          stop := DoAsm(at, callee.text);
        }
        return;
      }
      match RoutineNamed(name.value)
      case Kmalloc => DoKmalloc(args, dest);
      case Kcalloc => stop := DoKcalloc(args, dest);
      case Kfree => stop := DoKfree(at, args);
      case Memset => stop := DoMemset(at, args);
      case Memcpy => stop := DoMemcpy(at, args);
      case DmaAlloc =>
        if !cfg.dma.Ignore? {
          DoDmaAlloc(at, args, dest);
        }
      case DmaMap =>
        if !cfg.dma.Ignore? {
          stop := DoDmaMap(at, args);
        }
      case IommuMap => DoIommuMap();
      case OtherRoutine =>
    }

    method DoGep(base: Operand, indices: seq<Operand>, dest: Name)
      requires Valid()
      modifies this`ptrs, this`verdict
      ensures View() == ExecGep(cfg, old(View()), base, indices, dest)
      ensures old(verdict).Fail? == verdict.Fail?
    {
      hide GepOffset;
      if !base.Local? {
        ptrs := ptrs[dest := UnknownPtr];
        Mark(GepBaseNotLocal);
        return;
      }
      var p := UnknownPtr;
      if base.name in ptrs {
        p := ptrs[base.name];
      } else if base.name in slots {
        p := slots[base.name];
      }
      if p.UnknownPtr? {
        ptrs := ptrs[dest := UnknownPtr];
        return;
      }
      var o := InferGepOffset(base, indices, p.offset, cfg.defs);
      if o.None? {
        ptrs := ptrs[dest := UnknownPtr];
        Mark(GepUnsupported(p.DmaPtr?));
      } else if p.KmallocPtr? {
        ptrs := ptrs[dest := KmallocPtr(p.id, o.value)];
      } else {
        ptrs := ptrs[dest := DmaPtr(p.id, o.value)];
      }
    }

    method DoPtrToInt(op: Operand, dest: Name)
      modifies this`ints, this`verdict
      ensures View() == ExecPtrToInt(old(View()), op, dest)
      ensures old(verdict).Fail? == verdict.Fail?
    {
      if op.Local? {
        var v := UnknownInt;
        if op.name in ptrs && ptrs[op.name].KmallocPtr? {
          v := PtrOffset(ptrs[op.name].id, ptrs[op.name].offset);
        }
        ints := ints[dest := v];
      } else {
        ints := ints[dest := UnknownInt];
        Mark(PtrToIntNotLocal);
      }
    }

    method DoIntToPtr(op: Operand, dest: Name)
      modifies this`ptrs, this`verdict
      ensures View() == ExecIntToPtr(old(View()), op, dest)
      ensures old(verdict).Fail? == verdict.Fail?
    {
      if op.Local? {
        var v := UnknownPtr;
        if op.name in ints && ints[op.name].PtrOffset? {
          v := KmallocPtr(ints[op.name].id, ints[op.name].offset);
        }
        ptrs := ptrs[dest := v];
      } else {
        ptrs := ptrs[dest := UnknownPtr];
        Mark(IntToPtrNotLocal);
      }
    }

    method DoAdd(op0: Operand, op1: Operand, dest: Name)
      modifies this`ints, this`verdict
      ensures View() == ExecAdd(old(View()), op0, op1, dest)
      ensures old(verdict).Fail? == verdict.Fail?
    {
      var l, r := IntAt(View(), op0), IntAt(View(), op1);
      var out: Option<IntVal> := None;
      if HoldsOffset(l) {
        if ConstU64(op1).Some? {
          out := Some(PtrOffset(l.value.id, l.value.offset + ConstU64(op1).value));
        }
      } else if HoldsOffset(r) {
        if ConstU64(op0).Some? {
          out := Some(PtrOffset(r.value.id, r.value.offset + ConstU64(op0).value));
        }
      }
      if out.Some? {
        ints := ints[dest := out.value];
      } else if l.Some? || r.Some? {
        ints := ints[dest := UnknownInt];
        Mark(AddUnsupported);
      }
    }

    method DoSub(op0: Operand, op1: Operand, dest: Name)
      modifies this`ints, this`verdict
      ensures View() == ExecSub(old(View()), op0, op1, dest)
      ensures old(verdict).Fail? == verdict.Fail?
    {
      var l, r := IntAt(View(), op0), IntAt(View(), op1);
      if HoldsOffset(l) && ConstU64(op1).Some? {
        ints := ints[dest := PtrOffset(l.value.id, l.value.offset - ConstU64(op1).value)];
      } else if l.Some? || r.Some? {
        ints := ints[dest := UnknownInt];
        Mark(SubUnsupported);
      }
      if r.Some? {
        Mark(SubPointerRhs);
      }
    }

    method DoBitCast(op: Operand, dest: Name)
      modifies this`ptrs, this`verdict
      ensures View() == ExecBitCast(old(View()), op, dest)
      ensures old(verdict).Fail? == verdict.Fail?
    {
      if op.Local? {
        ptrs := ptrs[dest := if op.name in ptrs then ptrs[op.name] else UnknownPtr];
      } else {
        ptrs := ptrs[dest := UnknownPtr];
        Mark(BitCastNotLocal);
      }
    }

    method DoAccess(at: Loc, k: VcKind, p: PtrVal, ty: Type) returns (stop: bool)
      requires Valid() && !verdict.Fail? && (k.StoreVc? || k.LoadVc?)
      modifies this`verdict, this`checks, this`irqVcs, gate
      ensures View() == ExecAccess(cfg, old(View()), at, k, p, ty)
      ensures stop == verdict.Fail?
    {
      hide ExecTypedAccess;
      hide SizeOf;
      if p.UnknownPtr? {
        return false;
      }
      if p.id in freed {
        verdict := Fail(UseAfterFree(k, at.func));
        return true;
      }
      var size := ComputeSize(ty, cfg.defs);
      stop := DoTypedAccess(at, k, p.id, p.offset, size);
    }

    method DoTypedAccess(at: Loc, k: VcKind, id: nat, offset: int, size: Option<U64>) returns (stop: bool)
      requires Valid() && !verdict.Fail?
      modifies this`verdict, this`checks, this`irqVcs, gate
      ensures View() == ExecTypedAccess(cfg, old(View()), at, k, id, offset, size)
      ensures stop == verdict.Fail?
    {
      hide ExecSizedAccess;
      match size
      case None =>
        Mark(if k.StoreVc? then StoreUnsized else LoadUnsized);
        stop := false;
      case Some(n) =>
        stop := DoSizedAccess(at, k, id, offset, n);
    }

    method DoSizedAccess(at: Loc, k: VcKind, id: nat, offset: int, n: U64) returns (stop: bool)
      requires Valid() && !verdict.Fail?
      modifies this`verdict, this`checks, this`irqVcs, gate
      ensures View() == ExecSizedAccess(cfg, old(View()), at, k, id, offset, n)
      ensures stop == verdict.Fail?
    {
      hide CheckBounds;
      hide ExecIrqRace;
      hide SizedClass;
      hide KindText;
      stop := BoundsOf(at, k, id, offset, n, SizedClass(KindText(k), n));
      if id in sizes && !stop && cfg.irqRisk {
        DoIrqRace(at, if k.StoreVc? then IrqStoreVc else IrqLoadVc, id);
      }
    }

    method DoIrqRace(at: Loc, k: VcKind, id: nat)
      requires !verdict.Fail?
      modifies this`verdict, this`irqVcs, gate
      ensures View() == ExecIrqRace(old(View()), at, k, id)
      ensures !verdict.Fail?
    {
      hide VcId;
      hide IrqClass;
      var vc := VcId(at, k);
      irqVcs := irqVcs + 1;
      var run := gate.ShouldRunSolver(vc, IrqClass(id));
      if !run {
        Mark(HitlBlocked(k, vc));
      } else {
        Mark(IrqRace(k, id, at.func));
      }
    }

    method DoStore(at: Loc, address: Operand, value: Operand) returns (stop: bool)
      requires Valid() && !verdict.Fail?
      modifies this, gate
      ensures View() == ExecStore(cfg, old(View()), at, address, value)
      ensures stop == verdict.Fail?
    {
      hide ExecAccess;
      stop := false;
      if address.Local? {
        if address.name in slotNames {
          if value.Local? && value.name in ptrs {
            slots := slots[address.name := ptrs[value.name]];
          }
        }
        assert View() == RecordSpill(old(View()), address.name, value);
        if address.name in ptrs {
          stop := DoAccess(at, StoreVc, ptrs[address.name], TypeOf(value));
        }
      }
    }

    method DoLoad(at: Loc, address: Operand, ty: Type, dest: Name) returns (stop: bool)
      requires Valid() && !verdict.Fail?
      modifies this, gate
      ensures View() == ExecLoad(cfg, old(View()), at, address, ty, dest)
      ensures stop == verdict.Fail?
    {
      hide ExecAccess;
      stop := false;
      if address.Local? {
        if address.name in slotNames && address.name in slots {
          ptrs := ptrs[dest := slots[address.name]];
        }
        assert View() == RecoverSpill(old(View()), address.name, dest);
        if address.name in ptrs {
          stop := DoAccess(at, LoadVc, ptrs[address.name], ty);
        }
      }
    }

    method DoInstr(at: Loc, instr: Instr) returns (stop: bool)
      requires Valid() && !verdict.Fail?
      modifies this, gate
      ensures View() == Exec(cfg, at, instr, old(View()))
      ensures stop == verdict.Fail?
    {
      hide ExecCall;
      hide ExecGep;
      hide ExecPtrToInt;
      hide ExecIntToPtr;
      hide ExecAdd;
      hide ExecSub;
      hide ExecBitCast;
      hide ExecStore;
      hide ExecLoad;
      stop := false;
      match instr
      case Alloca(slot) => slotNames := slotNames + {slot};
      case Call(callee, args, result) => stop := DoCall(at, callee, args, result);
      case GetElementPtr(base, indices, dest) => DoGep(base, indices, dest);
      case PtrToInt(op, dest) => DoPtrToInt(op, dest);
      case IntToPtr(op, dest) => DoIntToPtr(op, dest);
      case Add(op0, op1, dest) => DoAdd(op0, op1, dest);
      case Sub(op0, op1, dest) => DoSub(op0, op1, dest);
      case BitCast(op, dest) => DoBitCast(op, dest);
      case Store(address, value) => stop := DoStore(at, address, value);
      case Load(address, ty, dest) => stop := DoLoad(at, address, ty, dest);
      case OtherInstr =>
    }

    /** The three nested loops of `analyze`. */
    method ScanModule(m: Module)
      requires Valid() && View() == InitialState(gate.View())
      modifies this, gate
      ensures View() == RunModule(cfg, m.functions, 0, old(View()))
    {
      hide Exec;
      ghost var start := View();
      var k := 0;
      while k < |m.functions|
        invariant 0 <= k <= |m.functions|
        invariant RunModule(cfg, m.functions, 0, start) == RunModule(cfg, m.functions, k, View())
        invariant !verdict.Fail?
      {
        var f := m.functions[k];
        ScanFunction(f);
        if verdict.Fail? {
          break;
        }
        k := k + 1;
      }
    }

    method ScanFunction(f: Function)
      requires Valid() && !verdict.Fail?
      modifies this, gate
      ensures View() == RunFunction(cfg, f, 0, old(View()))
    {
      hide Exec;
      ghost var start := View();
      var b := 0;
      while b < |f.blocks|
        invariant 0 <= b <= |f.blocks|
        invariant RunFunction(cfg, f, 0, start) == RunFunction(cfg, f, b, View())
        invariant !verdict.Fail?
      {
        ghost var before := View();
        var i := 0;
        var stop := false;
        while i < |f.blocks[b]| && !stop
          invariant 0 <= i <= |f.blocks[b]|
          invariant stop == verdict.Fail?
          invariant RunBlock(cfg, f.name, b, f.blocks[b], 0, before)
                 == RunBlock(cfg, f.name, b, f.blocks[b], i, View())
          decreases |f.blocks[b]| - i
        {
          stop := DoInstr(Loc(f.name, b, i), f.blocks[b][i]);
          i := i + 1;
        }
        if verdict.Fail? {
          break;
        }
        b := b + 1;
      }
    }

    /** The require-iommu check after the loops. */
    method FinalCheck()
      requires Valid()
      modifies this`verdict
      ensures IsOutcome(cfg, old(View()), verdict)
      ensures View() == old(View()).(verdict := verdict)
    {
      if cfg.dma.RequireIommu? {
        var todo := dmaIds;
        while todo != {}
          invariant todo <= dmaIds && dmaIds - todo <= mapped
          invariant verdict == old(verdict)
          decreases todo
        {
          var id :| id in todo;
          if id !in mapped {
            verdict := Fail(DmaNotMapped(id));
            return;
          }
          todo := todo - {id};
        }
      }
    }
  }
}
