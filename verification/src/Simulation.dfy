/**
 The tracked fragment and the proof that, inside it, the scan decides exactly what the machine does.
 */
module Simulation {
  import opened Common
  import opened Types
  import opened TypeSize
  import opened Ir
  import opened Gep
  import opened Gate
  import opened Scan
  import opened ScanFacts
  import M = Machine

  // ------------------------------------------------------------ the fragment

  /** What a name stands for: a heap pointer, an integer made from one, a stack slot, or anything else. */
  datatype Kind = HeapPtr(dma: bool) | HeapInt | Slot(content: Option<bool>) | Plain

  type Kinds = map<Name, Kind>

  function KindOf(ks: Kinds, op: Operand): Kind {
    if op.Local? && op.name in ks then ks[op.name] else Plain
  }

  /** Every name is defined once. */
  function Fresh(ks: Kinds, n: Name, k: Kind): Option<Kinds> {
    if n in ks then None else Some(ks[n := k])
  }

  function FreshResult(ks: Kinds, n: Option<Name>, k: Kind): Option<Kinds> {
    if n.Some? then Fresh(ks, n.value, k) else Some(ks)
  }

  /** `memset`/`memcpy` operands are kmalloc pointers or not locals at all. */
  predicate BlockOperand(ks: Kinds, op: Operand) { !op.Local? || KindOf(ks, op) == HeapPtr(false) }

  function CheckCall(ks: Kinds, asm: AsmPolicy, callee: Callee, args: seq<Operand>, dest: Option<Name>): Option<Kinds> {
    match CalleeName(callee)
    case None =>
      if callee.Asm? && (asm.Trap? || !IsSafeAsm(callee.text)) then None else FreshResult(ks, dest, Plain)
    case Some(name) =>
      match RoutineNamed(name)
      case Kmalloc =>
        if |args| >= 1 && ConstU64(args[0]).Some? then FreshResult(ks, dest, HeapPtr(false)) else None
      case Kcalloc =>
        if |args| >= 2 && ConstU64(args[0]).Some? && ConstU64(args[1]).Some?
           && CheckedMul(ConstU64(args[0]).value, ConstU64(args[1]).value).Some?
        then FreshResult(ks, dest, HeapPtr(false)) else None
      case DmaAlloc =>
        if |args| >= 2 && ConstU64(args[1]).Some? then FreshResult(ks, dest, HeapPtr(true)) else None
      case Kfree =>
        if |args| >= 1 && KindOf(ks, args[0]) == HeapPtr(false) then FreshResult(ks, dest, Plain) else None
      case Memset =>
        if |args| >= 3 && ConstU64(args[2]).Some? && BlockOperand(ks, args[0])
        then FreshResult(ks, dest, Plain) else None
      case Memcpy =>
        if |args| >= 3 && ConstU64(args[2]).Some? && BlockOperand(ks, args[0]) && BlockOperand(ks, args[1])
        then FreshResult(ks, dest, Plain) else None
      case DmaMap => None
      case _ => FreshResult(ks, dest, Plain)
  }

  /** The indices of a `getelementptr` are constants and the base has a stride. */
  predicate KnownDelta(base: Operand, indices: seq<Operand>, defs: Defs)
    requires Acyclic(defs)
  {
    Delta(indices, 0, TypeOf(base), defs).Some?
  }

  function CheckSum(ks: Kinds, op0: Operand, op1: Operand, dest: Name, commutes: bool): Option<Kinds> {
    var l, r := KindOf(ks, op0).HeapInt?, KindOf(ks, op1).HeapInt?;
    if l && ConstU64(op1).Some? then Fresh(ks, dest, HeapInt)
    else if commutes && r && ConstU64(op0).Some? then Fresh(ks, dest, HeapInt)
    else if !l && !r then Fresh(ks, dest, Plain)
    else None
  }

  function CheckStore(ks: Kinds, address: Operand, value: Operand, defs: Defs): Option<Kinds>
    requires Acyclic(defs)
  {
    if !address.Local? then Some(ks) else
    match KindOf(ks, address)
    case HeapPtr(_) => if SizeOf(TypeOf(value), defs).Some? then Some(ks) else None
    case Slot(content) =>
      (match KindOf(ks, value)
       case HeapPtr(dma) => Some(ks[address.name := Slot(Some(dma))])
       case _ => if content.None? then Some(ks) else None)
    case _ => None
  }

  function CheckLoad(ks: Kinds, address: Operand, ty: Type, dest: Name, defs: Defs): Option<Kinds>
    requires Acyclic(defs)
  {
    if !address.Local? then Fresh(ks, dest, Plain) else
    match KindOf(ks, address)
    case HeapPtr(_) => if SizeOf(ty, defs).Some? then Fresh(ks, dest, Plain) else None
    case Slot(Some(dma)) => Fresh(ks, dest, HeapPtr(dma))
    case Slot(None) => Fresh(ks, dest, Plain)
    case _ => None
  }

  /** The kinds after an instruction, or `None` when it leaves the fragment. */
  function CheckInstr(ks: Kinds, instr: Instr, cfg: Config): Option<Kinds>
  {
    match instr
    case Alloca(slot) => Fresh(ks, slot, Slot(None))
    case Call(callee, args, result) => CheckCall(ks, cfg.asmPolicy, callee, args, result)
    case GetElementPtr(base, indices, dest) =>
      if KindOf(ks, base).HeapPtr? && KnownDelta(base, indices, cfg.defs) then Fresh(ks, dest, KindOf(ks, base)) else None
    case PtrToInt(op, dest) => if KindOf(ks, op) == HeapPtr(false) then Fresh(ks, dest, HeapInt) else None
    case IntToPtr(op, dest) => if KindOf(ks, op).HeapInt? then Fresh(ks, dest, HeapPtr(false)) else None
    case BitCast(op, dest) =>
      if !op.Local? then None
      else Fresh(ks, dest, if KindOf(ks, op).HeapPtr? then KindOf(ks, op) else Plain)
    case Add(op0, op1, dest) => CheckSum(ks, op0, op1, dest, true)
    case Sub(op0, op1, dest) => CheckSum(ks, op0, op1, dest, false)
    case Store(address, value) => CheckStore(ks, address, value, cfg.defs)
    case Load(address, ty, dest) => CheckLoad(ks, address, ty, dest, cfg.defs)
    case OtherInstr => Some(ks)
  }

  /** A stream every instruction of which stays in the fragment. */
  predicate Tracked(ks: Kinds, sites: seq<Site>, cfg: Config)
    decreases |sites|
  {
    sites == [] ||
    var next := CheckInstr(ks, sites[0].instr, cfg);
    next.Some? && Tracked(next.value, sites[1..], cfg)
  }

  // ------------------------------------------------------------ the relation

  /** The scan's pointer and the machine's value denote the same byte of the same block. */
  predicate SamePtr(p: PtrVal, v: M.Value, heap: seq<M.HeapBlock>, dma: bool) {
    && v.Address? && v.block < |heap|
    && p == if dma then DmaPtr(v.block, v.addr - heap[v.block].base)
            else KmallocPtr(v.block, v.addr - heap[v.block].base)
  }

  predicate SameInt(i: IntVal, v: M.Value, heap: seq<M.HeapBlock>) {
    && v.Address? && v.block < |heap|
    && i == PtrOffset(v.block, v.addr - heap[v.block].base)
  }

  predicate Untracked(n: Name, ptrs: map<Name, PtrVal>) { n in ptrs ==> ptrs[n].UnknownPtr? }

  /** What the kind of a name promises about both sides. */
  predicate Agrees(k: Kind, n: Name, s: ScanState, m: M.State) {
    match k
    case HeapPtr(dma) =>
      && n in s.ptrs && n in m.regs && SamePtr(s.ptrs[n], m.regs[n], m.heap, dma)
      && n !in s.ints && n !in s.slotNames && n !in s.slots
    case HeapInt =>
      && n in s.ints && n in m.regs && SameInt(s.ints[n], m.regs[n], m.heap)
      && n !in s.ptrs && n !in s.slotNames && n !in s.slots
    case Slot(content) =>
      && n in s.slotNames && n in m.regs && m.regs[n] == M.SlotAddress(n)
      && n !in s.ptrs && n !in s.ints
      && (match content
          case None => Untracked(n, s.slots)
          case Some(dma) => n in s.slots && n in m.cells && SamePtr(s.slots[n], m.cells[n], m.heap, dma))
    case Plain =>
      Untracked(n, s.ptrs) && n !in s.ints && n !in s.slotNames && n !in s.slots
  }

  ghost predicate NamesAgree(ks: Kinds, s: ScanState, m: M.State) {
    && (forall n :: n in ks ==> Agrees(ks[n], n, s, m))
    && (forall n :: n !in ks ==> n !in s.ptrs && n !in s.ints && n !in s.slotNames && n !in s.slots)
  }

  ghost predicate HeapsAgree(s: ScanState, heap: seq<M.HeapBlock>) {
    && |heap| == s.counter
    && (forall i :: i in s.freed ==> i < s.counter)
    && (forall i :: 0 <= i < |heap| ==> i in s.sizes && s.sizes[i] == heap[i].size)
    && (forall i :: 0 <= i < |heap| ==> (i in s.freed <==> !heap[i].live))
  }

  ghost predicate Related(ks: Kinds, s: ScanState, m: M.State) {
    s.verdict.Pass? && m.fault.None? && !m.flat && s.gate.mode.Off? && HeapsAgree(s, m.heap) && NamesAgree(ks, s, m)
  }

  /** The fault a failing verdict reports. */
  function FaultOf(why: Reason): Option<M.Fault> {
    match why
    case OutOfBoundsAccess(_, _) => Some(M.OutOfBoundsFault)
    case UseAfterFree(_, _) => Some(M.UseAfterFreeFault)
    case DoubleFree(_) => Some(M.DoubleFreeFault)
    case _ => None
  }

  /** Both sides have stopped for the same reason. */
  predicate BothStopped(s: ScanState, m: M.State) {
    s.verdict.Fail? && m.fault.Some? && FaultOf(s.verdict.why) == m.fault
  }

  ghost predicate Corresponds(ks: Kinds, s: ScanState, m: M.State) {
    Related(ks, s, m) || BothStopped(s, m)
  }

  /** Human gate off, no freeing interrupt handler, DMA tracked, the solver always decides. */
  predicate Decisive(cfg: ConfigData) {
    cfg.dma.Verify? && !cfg.irqRisk && cfg.timeouts == {}
  }

  // ------------------------------------------------------------ definitions

  lemma DefinePtr(ks: Kinds, s: ScanState, m: M.State, n: Name, p: PtrVal, v: M.Value, dma: bool)
    requires Related(ks, s, m) && n !in ks && SamePtr(p, v, m.heap, dma)
    ensures Related(ks[n := HeapPtr(dma)], SetPtr(s, n, p), M.Define(m, n, v))
  {
  }

  lemma DefineInt(ks: Kinds, s: ScanState, m: M.State, n: Name, i: IntVal, v: M.Value)
    requires Related(ks, s, m) && n !in ks && SameInt(i, v, m.heap)
    ensures Related(ks[n := HeapInt], SetInt(s, n, i), M.Define(m, n, v))
  {
  }

  lemma DefinePlain(ks: Kinds, s: ScanState, m: M.State, n: Name, v: M.Value)
    requires Related(ks, s, m) && n !in ks
    ensures Related(ks[n := Plain], s, M.Define(m, n, v))
  {
  }

  lemma DefineUnknown(ks: Kinds, s: ScanState, m: M.State, n: Name, v: M.Value)
    requires Related(ks, s, m) && n !in ks
    ensures Related(ks[n := Plain], SetPtr(s, n, UnknownPtr), M.Define(m, n, v))
  {
  }

  lemma DefineSlot(ks: Kinds, s: ScanState, m: M.State, n: Name)
    requires Related(ks, s, m) && n !in ks
    ensures Related(ks[n := Slot(None)], s.(slotNames := s.slotNames + {n}), M.Define(m, n, M.SlotAddress(n)))
  {
  }

  lemma PlainResult(ks: Kinds, s: ScanState, m: M.State, dest: Option<Name>, next: Kinds)
    requires Corresponds(ks, s, m) && FreshResult(ks, dest, Plain) == Some(next)
    ensures Corresponds(next, s, M.DefineResult(m, dest, M.Junk))
  {
    hide Related;
    if dest.Some? && Related(ks, s, m) {
      DefinePlain(ks, s, m, dest.value, M.Junk);
    }
  }

  // ------------------------------------------------------------ accesses

  /** Once decided, a bounds check fails exactly outside the block and otherwise leaves the heap alone. */
  lemma DecidedBounds(cfg: Config, s: ScanState, at: Loc, k: VcKind, id: nat, offset: int, len: U64, cls: string)
    requires Decisive(cfg) && s.gate.mode.Off? && s.verdict.Pass? && id in s.sizes
    ensures var t := CheckBounds(cfg, s, at, k, id, offset, len, cls);
      if OutOfBounds(s.sizes[id], offset, len) then t.verdict == Fail(OutOfBoundsAccess(k, at.func))
      else t.verdict.Pass? && SameHeap(s, t) && t.gate.mode.Off?
  {
    hide VcId;
  }

  lemma SameHeapRelated(ks: Kinds, s: ScanState, t: ScanState, m: M.State)
    requires Related(ks, s, m) && SameHeap(s, t) && t.verdict.Pass? && t.gate.mode.Off?
    ensures Related(ks, t, m)
  {
  }

  /** A guarded access: use after free first, then bounds. */
  function GuardedAccess(cfg: Config, s: ScanState, at: Loc, k: VcKind, p: PtrVal, len: U64, cls: string): ScanState
    requires !p.UnknownPtr?
  {
    if p.id in s.freed then Failed(s, UseAfterFree(k, at.func))
    else CheckBounds(cfg, s, at, k, p.id, p.offset, len, cls)
  }

  lemma TouchFacts(s: ScanState, m: M.State, p: PtrVal, v: M.Value, dma: bool, len: U64)
    requires HeapsAgree(s, m.heap) && m.fault.None? && !m.flat && SamePtr(p, v, m.heap, dma)
    ensures p.id in s.sizes
    ensures M.Touch(m, v, len) ==
      if p.id in s.freed then m.(fault := Some(M.UseAfterFreeFault))
      else if OutOfBounds(s.sizes[p.id], p.offset, len) then m.(fault := Some(M.OutOfBoundsFault))
      else m
  {
    var b := m.heap[v.block];
    assert p.id == v.block && s.sizes[p.id] == b.size && (p.id in s.freed <==> !b.live);
  }

  lemma TouchAgrees(cfg: Config, ks: Kinds, s: ScanState, m: M.State, at: Loc, k: VcKind, p: PtrVal, v: M.Value, dma: bool, len: U64, cls: string)
    requires Decisive(cfg) && Related(ks, s, m) && SamePtr(p, v, m.heap, dma)
    ensures Corresponds(ks, GuardedAccess(cfg, s, at, k, p, len, cls), M.Touch(m, v, len))
    ensures M.Touch(m, v, len).fault.None? ==> M.Touch(m, v, len) == m
  {
    hide CheckBounds;
    hide NamesAgree;
    hide HeapsAgree;
    hide SameHeap;
    hide OutOfBounds;
    hide M.Touch;
    TouchFacts(s, m, p, v, dma, len);
    if p.id !in s.freed {
      DecidedBounds(cfg, s, at, k, p.id, p.offset, len, cls);
      if !OutOfBounds(s.sizes[p.id], p.offset, len) {
        SameHeapRelated(ks, s, CheckBounds(cfg, s, at, k, p.id, p.offset, len, cls), m);
      }
    }
  }

  lemma BlockAccessAgrees(cfg: Config, ks: Kinds, s: ScanState, m: M.State, at: Loc, k: VcKind, op: Operand, len: U64)
    requires Decisive(cfg) && Related(ks, s, m) && BlockOperand(ks, op)
    ensures Corresponds(ks, ExecBlockAccess(cfg, s, at, k, op, len), M.Touch(m, M.Eval(m, op), len))
    ensures var t := M.Touch(m, M.Eval(m, op), len); t.fault.None? ==> t == m
  {
    hide CheckBounds;
    hide KindText;
    hide SizedClass;
    if op.Local? {
      assert Agrees(ks[op.name], op.name, s, m);
      TouchAgrees(cfg, ks, s, m, at, k, s.ptrs[op.name], m.regs[op.name], false, len, SizedClass(KindText(k), len));
    }
  }

  lemma TypedAccessAgrees(cfg: Config, ks: Kinds, s: ScanState, m: M.State, at: Loc, k: VcKind, p: PtrVal, v: M.Value, dma: bool, ty: Type, len: U64)
    requires Decisive(cfg) && Related(ks, s, m) && SamePtr(p, v, m.heap, dma)
    requires (k.StoreVc? || k.LoadVc?) && SizeOf(ty, cfg.defs) == Some(len)
    ensures Corresponds(ks, ExecAccess(cfg, s, at, k, p, ty), M.Touch(m, v, len))
    ensures M.Touch(m, v, len).fault.None? ==> M.Touch(m, v, len) == m
  {
    hide SizeOf;
    hide CheckBounds;
    hide Corresponds;
    hide Related;
    hide KindText;
    hide SizedClass;
    hide ExecIrqRace;
    TouchAgrees(cfg, ks, s, m, at, k, p, v, dma, len, SizedClass(KindText(k), len));
    assert ExecAccess(cfg, s, at, k, p, ty) == GuardedAccess(cfg, s, at, k, p, len, SizedClass(KindText(k), len));
  }

  // ------------------------------------------------------------ calls

  lemma NewAgrees(ks: Kinds, s: ScanState, m: M.State, size: U64, dest: Option<Name>, dma: bool, next: Kinds)
    requires Related(ks, s, m) && FreshResult(ks, dest, HeapPtr(dma)) == Some(next)
    ensures Related(next, Allocate(s, size, dest, dma), M.New(m, size, dest))
  {
    var t := Allocate(s, size, None, dma);
    var u := M.New(m, size, None);
    GrowHeap(ks, s, m, t, u);
    if dest.Some? {
      var p := if dma then DmaPtr(s.counter, 0) else KmallocPtr(s.counter, 0);
      DefinePtr(ks, t, u, dest.value, p, M.Address(|m.heap|, m.brk), dma);
      assert Allocate(s, size, dest, dma) == SetPtr(t, dest.value, p);
    }
  }

  lemma GrowHeap(ks: Kinds, s: ScanState, m: M.State, t: ScanState, u: M.State)
    requires Related(ks, s, m)
    requires t.verdict.Pass? && t.gate == s.gate && u.fault.None? && !u.flat
    requires t.ptrs == s.ptrs && t.ints == s.ints && t.slots == s.slots && t.slotNames == s.slotNames
    requires u.regs == m.regs && u.cells == m.cells && m.heap <= u.heap && HeapsAgree(t, u.heap)
    ensures Related(ks, t, u)
  {
    hide HeapsAgree;
    forall n | n in ks ensures Agrees(ks[n], n, t, u) {
      assert Agrees(ks[n], n, s, m);
    }
  }

  /** Freeing a block moves no block, so every name keeps its meaning. */
  lemma FreeKeepsNames(ks: Kinds, s: ScanState, m: M.State, id: nat)
    requires NamesAgree(ks, s, m) && id < |m.heap|
    ensures NamesAgree(ks, s.(freed := s.freed + {id}), m.(heap := m.heap[id := m.heap[id].(live := false)]))
  {
    var t, u := s.(freed := s.freed + {id}), m.(heap := m.heap[id := m.heap[id].(live := false)]);
    forall x | x in ks ensures Agrees(ks[x], x, t, u) {
      assert Agrees(ks[x], x, s, m);
    }
  }

  lemma KfreeAgrees(ks: Kinds, s: ScanState, m: M.State, at: Loc, args: seq<Operand>)
    requires Related(ks, s, m) && |args| >= 1 && KindOf(ks, args[0]) == HeapPtr(false)
    ensures Corresponds(ks, ExecKfree(s, at, args), M.Release(m, M.Eval(m, args[0])))
  {
    hide NamesAgree;
    var n := args[0].name;
    Known(ks, s, m, n);
    if m.heap[m.regs[n].block].live {
      FreeKeepsNames(ks, s, m, m.regs[n].block);
    }
  }

  lemma MemcpyAgrees(cfg: Config, ks: Kinds, s: ScanState, m: M.State, at: Loc, args: seq<Operand>, n: U64)
    requires Decisive(cfg) && Related(ks, s, m)
    requires |args| >= 3 && ConstU64(args[2]) == Some(n) && BlockOperand(ks, args[0]) && BlockOperand(ks, args[1])
    ensures var u := M.Touch(m, M.Eval(m, args[0]), n);
      Corresponds(ks, ExecMemcpy(cfg, s, at, args), if u.fault.Some? then u else M.Touch(u, M.Eval(u, args[1]), n))
  {
    hide ExecBlockAccess;
    hide NamesAgree;
    hide HeapsAgree;
    hide BlockOperand;
    BlockAccessAgrees(cfg, ks, s, m, at, MemcpyDestVc, args[0], n);
    var t := ExecBlockAccess(cfg, s, at, MemcpyDestVc, args[0], n);
    if Related(ks, t, m) {
      BlockAccessAgrees(cfg, ks, t, m, at, MemcpySourceVc, args[1], n);
    }
  }

  lemma NamelessCallAgrees(cfg: Config, ks: Kinds, s: ScanState, m: M.State, at: Loc, callee: Callee, args: seq<Operand>, dest: Option<Name>, next: Kinds)
    requires Decisive(cfg) && Related(ks, s, m) && CheckCall(ks, cfg.asmPolicy, callee, args, dest) == Some(next)
    requires CalleeName(callee).None?
    ensures Corresponds(next, ExecCall(cfg, s, at, callee, args, dest), M.StepCall(m, callee, args, dest))
  {
    hide IsSafeAsm;
    assert s.verdict.Pass?;
    hide Related;
    PlainResult(ks, s, m, dest, next);
  }

  /** The calls that read, write or free a block. */
  lemma BlockCallAgrees(cfg: Config, ks: Kinds, s: ScanState, m: M.State, at: Loc, callee: Callee, args: seq<Operand>, dest: Option<Name>, next: Kinds)
    requires Decisive(cfg) && Related(ks, s, m) && CheckCall(ks, cfg.asmPolicy, callee, args, dest) == Some(next)
    requires CalleeName(callee).Some? && RoutineNamed(CalleeName(callee).value) in {Kfree, Memset, Memcpy}
    ensures Corresponds(next, ExecCall(cfg, s, at, callee, args, dest), M.StepCall(m, callee, args, dest))
  {
    hide RoutineNamed;
    hide IsSafeAsm;
    hide ExecBlockAccess;
    hide ExecMemcpy;
    hide ExecKfree;
    hide Allocate;
    hide CheckedMul;
    hide M.New;
    hide M.Touch;
    hide M.Release;
    hide ExecDmaAlloc;
    hide ExecDmaMap;
    hide ConstU64;
    assert s.verdict.Pass?;
    hide Related;
    match RoutineNamed(CalleeName(callee).value)
    case Kfree =>
      KfreeAgrees(ks, s, m, at, args);
      PlainResult(ks, ExecKfree(s, at, args), M.Release(m, M.Eval(m, args[0])), dest, next);
    case Memset =>
      var n := ConstU64(args[2]).value;
      BlockAccessAgrees(cfg, ks, s, m, at, MemsetVc, args[0], n);
      MemsetIsBlockAccess(cfg, s, at, args, n);
      PlainResult(ks, ExecMemset(cfg, s, at, args), M.Touch(m, M.Eval(m, args[0]), n), dest, next);
    case Memcpy =>
      var n := ConstU64(args[2]).value;
      MemcpyAgrees(cfg, ks, s, m, at, args, n);
      var u := M.Touch(m, M.Eval(m, args[0]), n);
      PlainResult(ks, ExecMemcpy(cfg, s, at, args),
                  if u.fault.Some? then u else M.Touch(u, M.Eval(u, args[1]), n), dest, next);
  }

  lemma CallAgrees(cfg: Config, ks: Kinds, s: ScanState, m: M.State, at: Loc, callee: Callee, args: seq<Operand>, dest: Option<Name>, next: Kinds)
    requires Decisive(cfg) && Related(ks, s, m) && CheckCall(ks, cfg.asmPolicy, callee, args, dest) == Some(next)
    ensures Corresponds(next, ExecCall(cfg, s, at, callee, args, dest), M.StepCall(m, callee, args, dest))
  {
    hide RoutineNamed;
    hide IsSafeAsm;
    hide ExecBlockAccess;
    hide ExecMemcpy;
    hide ExecKfree;
    hide Allocate;
    hide CheckedMul;
    hide M.New;
    hide M.Touch;
    hide M.Release;
    hide ExecDmaAlloc;
    hide ExecDmaMap;
    hide ConstU64;
    assert s.verdict.Pass?;
    hide Related;
    var name := CalleeName(callee);
    if name.None? {
      NamelessCallAgrees(cfg, ks, s, m, at, callee, args, dest, next);
    } else if RoutineNamed(name.value) in {Kfree, Memset, Memcpy} {
      BlockCallAgrees(cfg, ks, s, m, at, callee, args, dest, next);
    } else {
      hide ExecMemset;
      hide ExecAsm;
      match RoutineNamed(name.value)
      case Kmalloc => NewAgrees(ks, s, m, ConstU64(args[0]).value, dest, false, next);
      case Kcalloc =>
        NewAgrees(ks, s, m, CheckedMul(ConstU64(args[0]).value, ConstU64(args[1]).value).value, dest, false, next);
      case DmaAlloc => DmaAllocAgrees(ks, s, m, at, args, dest, next);
      case IommuMap =>
        SameNames(ks, s, ExecIommuMap(s), m);
        PlainResult(ks, ExecIommuMap(s), m, dest, next);
      case OtherRoutine => PlainResult(ks, s, m, dest, next);
    }
  }

  lemma MemsetIsBlockAccess(cfg: Config, s: ScanState, at: Loc, args: seq<Operand>, n: U64)
    requires |args| >= 3 && ConstU64(args[2]) == Some(n)
    ensures ExecMemset(cfg, s, at, args) == ExecBlockAccess(cfg, s, at, MemsetVc, args[0], n)
  {
    hide CheckBounds;
  }

  /** The relation looks only at the environments, the sizes and the freed set. */
  lemma SameNames(ks: Kinds, s: ScanState, t: ScanState, m: M.State)
    requires Related(ks, s, m) && t.verdict.Pass? && t.gate.mode.Off?
    requires t.ptrs == s.ptrs && t.ints == s.ints && t.slots == s.slots && t.slotNames == s.slotNames
    requires t.sizes == s.sizes && t.freed == s.freed && t.counter == s.counter
    ensures Related(ks, t, m)
  {
  }

  lemma DmaAllocAgrees(ks: Kinds, s: ScanState, m: M.State, at: Loc, args: seq<Operand>, dest: Option<Name>, next: Kinds)
    requires Related(ks, s, m) && |args| >= 2 && ConstU64(args[1]).Some?
    requires FreshResult(ks, dest, HeapPtr(true)) == Some(next)
    ensures Related(next, ExecDmaAlloc(s, at, args, dest), M.New(m, ConstU64(args[1]).value, dest))
  {
    hide NamesAgree;
    hide HeapsAgree;
    hide VcId;
    hide SizedClass;
    var size := ConstU64(args[1]).value;
    NewAgrees(ks, s, m, size, dest, true, next);
    SameNames(next, Allocate(s, size, dest, true), ExecDmaAlloc(s, at, args, dest), M.New(m, size, dest));
  }

  // ------------------------------------------------------------ arithmetic

  lemma GepAgrees(cfg: Config, ks: Kinds, s: ScanState, m: M.State, base: Operand, indices: seq<Operand>, dest: Name)
    requires Related(ks, s, m) && dest !in ks
    requires KindOf(ks, base).HeapPtr? && KnownDelta(base, indices, cfg.defs)
    ensures Related(ks[dest := KindOf(ks, base)], ExecGep(cfg, s, base, indices, dest),
                    M.Step(m, GetElementPtr(base, indices, dest), cfg.defs))
  {
    hide Delta;
    hide HeapsAgree;
    assert Agrees(ks[base.name], base.name, s, m);
    var p, v, d := s.ptrs[base.name], m.regs[base.name], Delta(indices, 0, TypeOf(base), cfg.defs).value;
    DefinePtr(ks, s, m, dest, p.(offset := p.offset + d), M.Offset(v, d), ks[base.name].dma);
  }

  lemma CastAgrees(cfg: Config, ks: Kinds, s: ScanState, m: M.State, instr: Instr, next: Kinds)
    requires Related(ks, s, m) && CheckInstr(ks, instr, cfg) == Some(next)
    requires instr.PtrToInt? || instr.IntToPtr? || instr.BitCast?
    ensures Related(next, Exec(cfg, Loc("", 0, 0), instr, s), M.Step(m, instr, cfg.defs))
  {
    hide HeapsAgree;
    var n, dest := instr.operand.name, instr.dest;
    var k, v := KindOf(ks, instr.operand), M.Eval(m, instr.operand);
    if n in ks {
      assert Agrees(ks[n], n, s, m);
    }
    match instr
    case PtrToInt(_, _) => DefineInt(ks, s, m, dest, PtrOffset(s.ptrs[n].id, s.ptrs[n].offset), v);
    case IntToPtr(_, _) => DefinePtr(ks, s, m, dest, KmallocPtr(s.ints[n].id, s.ints[n].offset), v, false);
    case BitCast(_, _) =>
      if k.HeapPtr? {
        DefinePtr(ks, s, m, dest, s.ptrs[n], v, k.dma);
      } else {
        DefineUnknown(ks, s, m, dest, v);
      }
  }

  lemma AddAgrees(ks: Kinds, s: ScanState, m: M.State, op0: Operand, op1: Operand, dest: Name, next: Kinds)
    requires Related(ks, s, m) && CheckSum(ks, op0, op1, dest, true) == Some(next)
    ensures Related(next, ExecAdd(s, op0, op1, dest), M.Define(m, dest, M.StepAdd(m, op0, op1)))
  {
    hide Related;
    IntsAreKinds(ks, s, m, op0);
    IntsAreKinds(ks, s, m, op1);
    if KindOf(ks, op0).HeapInt? && ConstU64(op1).Some? {
      var i, c := s.ints[op0.name], ConstU64(op1).value;
      DefineInt(ks, s, m, dest, i.(offset := i.offset + c), M.Offset(m.regs[op0.name], c));
    } else if KindOf(ks, op1).HeapInt? {
      var i, c := s.ints[op1.name], ConstU64(op0).value;
      DefineInt(ks, s, m, dest, i.(offset := i.offset + c), M.Offset(m.regs[op1.name], c));
    } else {
      DefinePlain(ks, s, m, dest, M.StepAdd(m, op0, op1));
    }
  }

  lemma SubAgrees(ks: Kinds, s: ScanState, m: M.State, op0: Operand, op1: Operand, dest: Name, next: Kinds)
    requires Related(ks, s, m) && CheckSum(ks, op0, op1, dest, false) == Some(next)
    ensures Related(next, ExecSub(s, op0, op1, dest), M.Define(m, dest, M.StepSub(m, op0, op1)))
  {
    hide Related;
    IntsAreKinds(ks, s, m, op0);
    IntsAreKinds(ks, s, m, op1);
    if KindOf(ks, op0).HeapInt? && ConstU64(op1).Some? {
      var i, c := s.ints[op0.name], -(ConstU64(op1).value as int);
      DefineInt(ks, s, m, dest, i.(offset := i.offset + c), M.Offset(m.regs[op0.name], c));
    } else {
      DefinePlain(ks, s, m, dest, M.StepSub(m, op0, op1));
    }
  }

  /** An operand is in `int_env` exactly when its kind says so. */
  lemma IntsAreKinds(ks: Kinds, s: ScanState, m: M.State, op: Operand)
    requires Related(ks, s, m)
    ensures IntAt(s, op).Some? <==> KindOf(ks, op).HeapInt?
    ensures KindOf(ks, op).HeapInt? ==> op.Local? && Agrees(HeapInt, op.name, s, m)
  {
    hide HeapsAgree;
    if op.Local? && op.name in ks {
      assert Agrees(ks[op.name], op.name, s, m);
    }
  }

  // ------------------------------------------------------------ loads and stores

  lemma StoreAgrees(cfg: Config, ks: Kinds, s: ScanState, m: M.State, at: Loc, address: Operand, value: Operand, next: Kinds)
    requires Decisive(cfg) && Related(ks, s, m) && CheckStore(ks, address, value, cfg.defs) == Some(next)
    ensures Corresponds(next, ExecStore(cfg, s, at, address, value), M.StepStore(m, address, value, cfg.defs))
  {
    hide ExecAccess;
    hide SizeOf;
    hide HeapsAgree;
    hide M.Touch;
    if !address.Local? {
      NonLocalTouch(m, address);
    } else {
      var n := address.name;
      assert Agrees(ks[n], n, s, m);
      if ks[n].HeapPtr? {
        TypedAccessAgrees(cfg, ks, s, m, at, StoreVc, s.ptrs[n], m.regs[n], ks[n].dma, TypeOf(value),
                          SizeOf(TypeOf(value), cfg.defs).value);
      } else {
        SpillAgrees(ks, s, m, n, value, next);
      }
    }
  }

  lemma NonLocalTouch(m: M.State, op: Operand)
    requires !op.Local?
    ensures forall len: nat :: M.Touch(m, M.Eval(m, op), len) == m
  {
  }

  lemma SpillAgrees(ks: Kinds, s: ScanState, m: M.State, n: Name, value: Operand, next: Kinds)
    requires Related(ks, s, m) && n in ks && ks[n].Slot?
    requires next == if KindOf(ks, value).HeapPtr? then ks[n := Slot(Some(KindOf(ks, value).dma))] else ks
    requires KindOf(ks, value).HeapPtr? || ks[n].content.None?
    ensures Related(next, RecordSpill(s, n, value), m.(cells := m.cells[n := M.Eval(m, value)]))
  {
    if value.Local? && value.name in ks {
      assert Agrees(ks[value.name], value.name, s, m);
    }
    var t, u := RecordSpill(s, n, value), m.(cells := m.cells[n := M.Eval(m, value)]);
    forall x | x in next ensures Agrees(next[x], x, t, u) {
      assert Agrees(ks[x], x, s, m);
    }
  }

  lemma HeapLoadAgrees(cfg: Config, ks: Kinds, s: ScanState, m: M.State, at: Loc, n: Name, ty: Type, len: U64, dest: Name)
    requires Decisive(cfg) && Related(ks, s, m) && dest !in ks
    requires n in ks && ks[n].HeapPtr? && Agrees(ks[n], n, s, m) && SizeOf(ty, cfg.defs) == Some(len)
    ensures Corresponds(ks[dest := Plain], ExecAccess(cfg, s, at, LoadVc, s.ptrs[n], ty),
                        M.Define(M.Touch(m, m.regs[n], len), dest, M.Junk))
  {
    hide ExecAccess;
    hide SizeOf;
    hide Related;
    hide M.Touch;
    TypedAccessAgrees(cfg, ks, s, m, at, LoadVc, s.ptrs[n], m.regs[n], ks[n].dma, ty, len);
    PlainResult(ks, ExecAccess(cfg, s, at, LoadVc, s.ptrs[n], ty), M.Touch(m, m.regs[n], len), Some(dest), ks[dest := Plain]);
  }

  lemma SlotLoadAgrees(ks: Kinds, s: ScanState, m: M.State, n: Name, dest: Name)
    requires Related(ks, s, m) && dest !in ks && n in ks && ks[n].Slot? && Agrees(ks[n], n, s, m)
    ensures Related(ks[dest := if ks[n].content.Some? then HeapPtr(ks[n].content.value) else Plain],
                    RecoverSpill(s, n, dest),
                    M.Define(m, dest, if n in m.cells then m.cells[n] else M.Junk))
  {
    hide Related;
    var v := if n in m.cells then m.cells[n] else M.Junk;
    if ks[n].content.Some? {
      DefinePtr(ks, s, m, dest, s.slots[n], v, ks[n].content.value);
    } else {
      DefinePlain(ks, s, m, dest, v);
      DefineUnknown(ks, s, m, dest, v);
    }
  }

  lemma Known(ks: Kinds, s: ScanState, m: M.State, n: Name)
    requires Related(ks, s, m) && n in ks
    ensures Agrees(ks[n], n, s, m)
  {
  }

  lemma LoadAgrees(cfg: Config, ks: Kinds, s: ScanState, m: M.State, at: Loc, address: Operand, ty: Type, dest: Name, next: Kinds)
    requires Decisive(cfg) && Related(ks, s, m) && CheckLoad(ks, address, ty, dest, cfg.defs) == Some(next)
    ensures Corresponds(next, ExecLoad(cfg, s, at, address, ty, dest), M.StepLoad(m, address, ty, dest, cfg.defs))
  {
    hide ExecAccess;
    hide SizeOf;
    hide M.Touch;
    hide Related;
    if !address.Local? {
      NonLocalTouch(m, address);
      DefinePlain(ks, s, m, dest, M.Junk);
    } else {
      var n := address.name;
      Known(ks, s, m, n);
      if ks[n].HeapPtr? {
        HeapLoadAgrees(cfg, ks, s, m, at, n, ty, SizeOf(ty, cfg.defs).value, dest);
      } else {
        SlotLoadAgrees(ks, s, m, n, dest);
      }
    }
  }

  // ------------------------------------------------------------ steps and runs

  lemma StepAgrees(cfg: Config, ks: Kinds, s: ScanState, m: M.State, x: Site, next: Kinds)
    requires Decisive(cfg) && Related(ks, s, m) && CheckInstr(ks, x.instr, cfg) == Some(next)
    ensures Corresponds(next, Exec(cfg, x.at, x.instr, s), M.Step(m, x.instr, cfg.defs))
  {
    hide NamesAgree;
    hide HeapsAgree;
    hide CheckCall;
    hide ExecCall;
    hide M.StepCall;
    hide ExecGep;
    hide KnownDelta;
    hide CheckLoad;
    hide CheckStore;
    match x.instr
    case Alloca(slot) => DefineSlot(ks, s, m, slot);
    case Call(callee, args, result) => CallAgrees(cfg, ks, s, m, x.at, callee, args, result, next);
    case GetElementPtr(base, indices, dest) => GepAgrees(cfg, ks, s, m, base, indices, dest);
    case PtrToInt(_, _) => CastAgrees(cfg, ks, s, m, x.instr, next);
    case IntToPtr(_, _) => CastAgrees(cfg, ks, s, m, x.instr, next);
    case BitCast(_, _) => CastAgrees(cfg, ks, s, m, x.instr, next);
    case Add(op0, op1, dest) => AddAgrees(ks, s, m, op0, op1, dest, next);
    case Sub(op0, op1, dest) => SubAgrees(ks, s, m, op0, op1, dest, next);
    case Store(address, value) => StoreAgrees(cfg, ks, s, m, x.at, address, value, next);
    case Load(address, ty, dest) => LoadAgrees(cfg, ks, s, m, x.at, address, ty, dest, next);
    case OtherInstr =>
  }

  /** What the scan concludes and how the machine ends: both pass, or both stop for the same reason. */
  predicate SameOutcome(v: Verdict, fault: Option<M.Fault>) {
    (v.Pass? && fault.None?) || (v.Fail? && fault.Some? && FaultOf(v.why) == fault)
  }

  lemma {:induction false} RunAgrees(cfg: Config, ks: Kinds, sites: seq<Site>, s: ScanState, m: M.State)
    requires Decisive(cfg) && Related(ks, s, m) && Tracked(ks, sites, cfg)
    ensures SameOutcome(RunSites(cfg, sites, s).verdict, M.Run(m, sites, cfg.defs).fault)
    decreases |sites|
  {
    hide Exec;
    hide M.Step;
    hide CheckInstr;
    hide NamesAgree;
    hide HeapsAgree;
    if sites != [] {
      var next := CheckInstr(ks, sites[0].instr, cfg).value;
      StepAgrees(cfg, ks, s, m, sites[0], next);
      var t, u := Exec(cfg, sites[0].at, sites[0].instr, s), M.Step(m, sites[0].instr, cfg.defs);
      if Related(next, t, u) {
        RunAgrees(cfg, next, sites[1..], t, u);
      }
    }
  }

  /**
   On every module whose instruction stream stays in the tracked fragment, the analysis fails
   exactly when the machine faults, names the kind of the first fault, and passes otherwise.
   */
  lemma {:induction false} ScanDecidesMachine(cfg: Config, fs: seq<Function>, gate: GateState, v: Verdict)
    requires Decisive(cfg) && gate.mode.Off?
    requires Tracked(map[], ModuleSites(fs, 0), cfg)
    requires IsOutcome(cfg, RunModule(cfg, fs, 0, InitialState(gate)), v)
    ensures SameOutcome(v, M.Run(M.START, ModuleSites(fs, 0), cfg.defs).fault)
  {
    ModuleIsFlat(cfg, fs, 0, InitialState(gate));
    assert Related(map[], InitialState(gate), M.START);
    RunAgrees(cfg, map[], ModuleSites(fs, 0), InitialState(gate), M.START);
  }

  /** The same for the machine with exact index products, on streams where no product saturates. */
  lemma {:induction false} ScanDecidesExactMachine(cfg: Config, fs: seq<Function>, gate: GateState, v: Verdict)
    requires Decisive(cfg) && gate.mode.Off?
    requires Tracked(map[], ModuleSites(fs, 0), cfg) && M.NoSaturation(ModuleSites(fs, 0), cfg.defs)
    requires IsOutcome(cfg, RunModule(cfg, fs, 0, InitialState(gate)), v)
    ensures SameOutcome(v, M.ExactRun(M.START, ModuleSites(fs, 0), cfg.defs).fault)
  {
    ScanDecidesMachine(cfg, fs, gate, v);
    M.ExactRunSame(M.START, ModuleSites(fs, 0), cfg.defs);
  }
}
