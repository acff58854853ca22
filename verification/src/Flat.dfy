/**
 Flat memory: addresses are bare numbers and a block is found by address. A passing scan keeps the
 flat machine from faulting as long as every freed pointer still points into its own block.
 */
module Flat {
  import opened Common
  import opened Types
  import opened TypeSize
  import opened Ir
  import opened Gep
  import opened Gate
  import opened Scan
  import opened Machine
  import S = Simulation

  /** What flat memory keeps of a value. */
  function Erase(v: Value): Value { if v.Address? then Address(0, v.addr) else v }

  function EraseAll(vs: map<Name, Value>): map<Name, Value> { map n | n in vs :: Erase(vs[n]) }

  /** The flat machine in the same situation. */
  function Flatten(m: State): State { m.(regs := EraseAll(m.regs), cells := EraseAll(m.cells), flat := true) }

  // ------------------------------------------------------------ blocks do not overlap

  predicate KnownBlock(v: Value, n: nat) { v.Address? ==> v.block < n }

  /** Blocks lie in order below `brk` with a gap after each, and every address was made from one of them. */
  ghost predicate Layout(m: State) {
    && !m.flat
    && (forall i :: 0 <= i < |m.heap| ==> m.heap[i].base + m.heap[i].size < m.brk)
    && (forall i, j :: 0 <= i < j < |m.heap| ==> m.heap[i].base + m.heap[i].size < m.heap[j].base)
    && (forall n :: n in m.regs ==> KnownBlock(m.regs[n], |m.heap|))
    && (forall n :: n in m.cells ==> KnownBlock(m.cells[n], |m.heap|))
  }

  /** An address inside a block is found in that block and in no other. */
  lemma FindsOwn(m: State, k: nat, addr: int)
    requires Layout(m) && k < |m.heap| && Covers(m.heap[k], addr)
    ensures Find(m.heap, addr) == Some(k)
  {
    var j := Find(m.heap, addr).value;
    assert !(j < k) && !(k < j);
  }

  // ------------------------------------------------------------ one step

  lemma FlatDefine(m: State, dest: Name, v: Value)
    requires Layout(m) && KnownBlock(v, |m.heap|)
    ensures Layout(Define(m, dest, v)) && Define(Flatten(m), dest, Erase(v)) == Flatten(Define(m, dest, v))
  {
    assert EraseAll(m.regs[dest := v]) == EraseAll(m.regs)[dest := Erase(v)];
  }

  lemma FlatResult(m: State, dest: Option<Name>, v: Value)
    requires Layout(m) && KnownBlock(v, |m.heap|)
    ensures Layout(DefineResult(m, dest, v))
    ensures DefineResult(Flatten(m), dest, Erase(v)) == Flatten(DefineResult(m, dest, v))
  {
    hide Layout;
    if dest.Some? {
      FlatDefine(m, dest.value, v);
    }
  }

  lemma EvalKnown(m: State, op: Operand)
    requires Layout(m)
    ensures KnownBlock(Eval(m, op), |m.heap|) && Eval(Flatten(m), op) == Erase(Eval(m, op))
  {
  }

  lemma FlatNew(m: State, size: U64, dest: Option<Name>)
    requires Layout(m)
    ensures Layout(New(m, size, dest)) && New(Flatten(m), size, dest) == Flatten(New(m, size, dest))
  {
    var t := m.(heap := m.heap + [HeapBlock(m.brk, size, true)], brk := m.brk + size + 1);
    assert Layout(t);
    FlatResult(t, dest, Address(|m.heap|, m.brk));
  }

  /** An access that does not fault touches bytes of one live block, the one found by address. */
  lemma FlatTouch(m: State, v: Value, len: nat)
    requires Layout(m) && m.fault.None? && KnownBlock(v, |m.heap|) && Touch(m, v, len).fault.None?
    ensures Touch(m, v, len) == m && Touch(Flatten(m), Erase(v), len) == Flatten(m)
  {
    if v.Address? {
      FindsOwn(m, v.block, v.addr);
    }
  }

  /** A freed address lies in the block it was made from, or just past its end. */
  predicate OwnAddress(m: State, v: Value) {
    v.Address? && v.block < |m.heap| ==> Covers(m.heap[v.block], v.addr)
  }

  lemma OwnRelease(m: State, v: Value)
    requires Layout(m) && m.fault.None? && KnownBlock(v, |m.heap|) && Release(m, v).fault.None?
    ensures Layout(Release(m, v))
    ensures OwnAddress(m, v) ==> Release(Flatten(m), Erase(v)) == Flatten(Release(m, v))
  {
    if v.Address? && OwnAddress(m, v) {
      FindsOwn(m, v.block, v.addr);
    }
  }

  /** Freeing by a foreign address faults or frees the wrong block. */
  lemma ForeignRelease(m: State, v: Value, dest: Option<Name>)
    requires Layout(m) && m.fault.None? && KnownBlock(v, |m.heap|) && Release(m, v).fault.None?
    requires !OwnAddress(m, v)
    ensures DefineResult(Release(Flatten(m), Erase(v)), dest, Junk) != Flatten(DefineResult(Release(m, v), dest, Junk))
  {
    var t, u := Release(Flatten(m), Erase(v)), Release(m, v);
    assert t.fault.Some? || (t.heap[v.block].live && !u.heap[v.block].live);
  }

  predicate IsKfree(instr: Instr) {
    IsCallTo(instr, "kfree") && |instr.args| >= 1
  }

  predicate OwnFree(m: State, instr: Instr) { IsKfree(instr) ==> OwnAddress(m, Eval(m, instr.args[0])) }

  lemma FlatCall(m: State, callee: Callee, args: seq<Operand>, dest: Option<Name>)
    requires Layout(m) && m.fault.None? && StepCall(m, callee, args, dest).fault.None?
    ensures Layout(StepCall(m, callee, args, dest))
    ensures OwnFree(m, Call(callee, args, dest)) <==>
      StepCall(Flatten(m), callee, args, dest) == Flatten(StepCall(m, callee, args, dest))
  {
    hide Layout;
    hide Flatten;
    hide Touch;
    hide Release;
    hide New;
    if CalleeName(callee).Some? {
      RoutineByName(Call(callee, args, dest));
    }
    hide RoutineNamed;
    hide OwnAddress;
    forall op: Operand ensures KnownBlock(Eval(m, op), |m.heap|) && Eval(Flatten(m), op) == Erase(Eval(m, op)) {
      EvalKnown(m, op);
    }
    FlatResult(m, dest, Junk);
    var name := CalleeName(callee);
    if name.Some? {
      match RoutineNamed(name.value)
      case Kmalloc =>
        if |args| >= 1 && ConstU64(args[0]).Some? {
          FlatNew(m, ConstU64(args[0]).value, dest);
        }
      case Kcalloc =>
        if |args| >= 2 && ConstU64(args[0]).Some? && ConstU64(args[1]).Some?
           && CheckedMul(ConstU64(args[0]).value, ConstU64(args[1]).value).Some? {
          FlatNew(m, CheckedMul(ConstU64(args[0]).value, ConstU64(args[1]).value).value, dest);
        }
      case DmaAlloc =>
        if |args| >= 2 && ConstU64(args[1]).Some? {
          FlatNew(m, ConstU64(args[1]).value, dest);
        }
      case Kfree =>
        if |args| >= 1 {
          OwnRelease(m, Eval(m, args[0]));
          if !OwnAddress(m, Eval(m, args[0])) {
            ForeignRelease(m, Eval(m, args[0]), dest);
          }
          FlatResult(Release(m, Eval(m, args[0])), dest, Junk);
        }
      case Memset =>
        if |args| >= 3 && ConstU64(args[2]).Some? {
          FlatTouch(m, Eval(m, args[0]), ConstU64(args[2]).value);
        }
      case Memcpy =>
        if |args| >= 3 && ConstU64(args[2]).Some? {
          FlatTouch(m, Eval(m, args[0]), ConstU64(args[2]).value);
          FlatTouch(m, Eval(m, args[1]), ConstU64(args[2]).value);
        }
      case _ =>
    }
  }

  lemma FlatStore(m: State, address: Operand, value: Operand, defs: Defs)
    requires Acyclic(defs) && Layout(m) && m.fault.None? && StepStore(m, address, value, defs).fault.None?
    ensures Layout(StepStore(m, address, value, defs))
    ensures StepStore(Flatten(m), address, value, defs) == Flatten(StepStore(m, address, value, defs))
  {
    hide SizeOf;
    hide Touch;
    EvalKnown(m, address);
    EvalKnown(m, value);
    var a := Eval(m, address);
    if a.SlotAddress? {
      assert EraseAll(m.cells[a.slot := Eval(m, value)]) == EraseAll(m.cells)[a.slot := Erase(Eval(m, value))];
    } else if SizeOf(TypeOf(value), defs).Some? {
      FlatTouch(m, a, SizeOf(TypeOf(value), defs).value);
    }
  }

  lemma CellKnown(m: State, slot: Name)
    requires Layout(m)
    ensures KnownBlock(CellValue(m, slot), |m.heap|) && CellValue(Flatten(m), slot) == Erase(CellValue(m, slot))
  {
  }

  lemma FlatSlotLoad(m: State, address: Operand, ty: Type, dest: Name, defs: Defs)
    requires Acyclic(defs) && Layout(m) && m.fault.None? && StepLoad(m, address, ty, dest, defs).fault.None?
    requires Eval(m, address).SlotAddress?
    ensures Layout(StepLoad(m, address, ty, dest, defs))
    ensures StepLoad(Flatten(m), address, ty, dest, defs) == Flatten(StepLoad(m, address, ty, dest, defs))
  {
    hide Layout;
    hide Flatten;
    hide SizeOf;
    hide Touch;
    hide Eval;
    hide CellValue;
    hide Define;
    hide EraseAll;
    var slot := Eval(m, address).slot;
    EvalKnown(m, address);
    CellKnown(m, slot);
    FlatDefine(m, dest, CellValue(m, slot));
  }

  /** A load that does not read a slot touches the heap and yields a value nobody follows. */
  lemma HeapLoadIs(m: State, address: Operand, ty: Type, dest: Name, defs: Defs)
    requires Acyclic(defs) && !Eval(m, address).SlotAddress?
    ensures StepLoad(m, address, ty, dest, defs)
         == Define(if SizeOf(ty, defs).Some? then Touch(m, Eval(m, address), SizeOf(ty, defs).value) else m, dest, Junk)
  {
    hide SizeOf;
    hide Touch;
    hide Eval;
    hide Define;
  }

  lemma FlatHeapLoad(m: State, address: Operand, ty: Type, dest: Name, defs: Defs)
    requires Acyclic(defs) && Layout(m) && m.fault.None? && StepLoad(m, address, ty, dest, defs).fault.None?
    requires !Eval(m, address).SlotAddress?
    ensures Layout(StepLoad(m, address, ty, dest, defs))
    ensures StepLoad(Flatten(m), address, ty, dest, defs) == Flatten(StepLoad(m, address, ty, dest, defs))
  {
    EvalKnown(m, address);
    HeapLoadIs(m, address, ty, dest, defs);
    HeapLoadIs(Flatten(m), address, ty, dest, defs);
    hide *;
    var a, n := Eval(m, address), SizeOf(ty, defs);
    JunkIsErased(m, dest);
    if n.Some? {
      DefineKeepsFault(Touch(m, a, n.value), dest);
      FlatTouch(m, a, n.value);
    }
  }

  lemma JunkIsErased(m: State, dest: Name)
    requires Layout(m)
    ensures Layout(Define(m, dest, Junk)) && Define(Flatten(m), dest, Junk) == Flatten(Define(m, dest, Junk))
  {
    hide Layout;
    FlatDefine(m, dest, Junk);
  }

  lemma FlatLoad(m: State, address: Operand, ty: Type, dest: Name, defs: Defs)
    requires Acyclic(defs) && Layout(m) && m.fault.None? && StepLoad(m, address, ty, dest, defs).fault.None?
    ensures Layout(StepLoad(m, address, ty, dest, defs))
    ensures StepLoad(Flatten(m), address, ty, dest, defs) == Flatten(StepLoad(m, address, ty, dest, defs))
  {
    hide StepLoad;
    hide Layout;
    if Eval(m, address).SlotAddress? {
      FlatSlotLoad(m, address, ty, dest, defs);
    } else {
      FlatHeapLoad(m, address, ty, dest, defs);
    }
  }

  lemma DefineKeepsFault(m: State, dest: Name)
    ensures Define(m, dest, Junk).fault == m.fault
  {
  }

  lemma FlatValue(m: State, instr: Instr, defs: Defs)
    requires Acyclic(defs) && Layout(m) && !instr.Call? && !instr.Store? && !instr.Load?
    ensures Layout(Step(m, instr, defs)) && Step(Flatten(m), instr, defs) == Flatten(Step(m, instr, defs))
  {
    hide Layout;
    hide Flatten;
    hide Delta;
    forall op: Operand ensures KnownBlock(Eval(m, op), |m.heap|) && Eval(Flatten(m), op) == Erase(Eval(m, op)) {
      EvalKnown(m, op);
    }
    match instr
    case Alloca(slot) => FlatDefine(m, slot, SlotAddress(slot));
    case GetElementPtr(base, indices, dest) =>
      var d := Delta(indices, 0, TypeOf(base), defs);
      FlatDefine(m, dest, if d.Some? then Offset(Eval(m, base), d.value) else Junk);
    case PtrToInt(op, dest) => FlatDefine(m, dest, Eval(m, op));
    case IntToPtr(op, dest) => FlatDefine(m, dest, Eval(m, op));
    case BitCast(op, dest) => FlatDefine(m, dest, Eval(m, op));
    case Add(op0, op1, dest) => FlatDefine(m, dest, StepAdd(m, op0, op1));
    case Sub(op0, op1, dest) => FlatDefine(m, dest, StepSub(m, op0, op1));
    case OtherInstr =>
  }

  /** A step without a fault does the same in flat memory exactly when it frees no foreign address. */
  lemma FlatStep(m: State, instr: Instr, defs: Defs)
    requires Acyclic(defs) && Layout(m) && m.fault.None? && Step(m, instr, defs).fault.None?
    ensures Layout(Step(m, instr, defs))
    ensures OwnFree(m, instr) <==> Step(Flatten(m), instr, defs) == Flatten(Step(m, instr, defs))
  {
    hide Layout;
    hide Flatten;
    hide StepCall;
    hide StepStore;
    hide StepLoad;
    match instr
    case Call(callee, args, dest) => FlatCall(m, callee, args, dest);
    case Store(address, value) => FlatStore(m, address, value, defs);
    case Load(address, ty, dest) => FlatLoad(m, address, ty, dest, defs);
    case _ => FlatValue(m, instr, defs);
  }

  // ------------------------------------------------------------ runs

  /** Every free of the run gets an address of the block it was made from. */
  predicate OwnFrees(m: State, sites: seq<Site>, defs: Defs)
    requires Acyclic(defs)
    decreases |sites|
  {
    sites == [] || (OwnFree(m, sites[0].instr) && OwnFrees(Step(m, sites[0].instr, defs), sites[1..], defs))
  }

  /** The flat machine is in the same situation before and after every instruction. */
  ghost predicate InStep(m: State, u: State, sites: seq<Site>, defs: Defs)
    requires Acyclic(defs)
    decreases |sites|
  {
    u == Flatten(m) &&
    (sites == [] || InStep(Step(m, sites[0].instr, defs), Step(u, sites[0].instr, defs), sites[1..], defs))
  }

  lemma {:induction false} FaultStays(m: State, sites: seq<Site>, defs: Defs)
    requires Acyclic(defs) && sites != [] && m.fault.None? && Run(m, sites, defs).fault.None?
    ensures Step(m, sites[0].instr, defs).fault.None?
    ensures Run(m, sites, defs) == Run(Step(m, sites[0].instr, defs), sites[1..], defs)
  {
    hide Step;
  }

  /** Both machines stay in step through a run without a fault exactly when its frees are its own. */
  lemma {:induction false} InStepIffOwnFrees(m: State, sites: seq<Site>, defs: Defs)
    requires Acyclic(defs) && Layout(m) && m.fault.None? && Run(m, sites, defs).fault.None?
    ensures InStep(m, Flatten(m), sites, defs) <==> OwnFrees(m, sites, defs)
    ensures OwnFrees(m, sites, defs) ==> Run(Flatten(m), sites, defs) == Flatten(Run(m, sites, defs))
    decreases |sites|
  {
    hide Step;
    hide Layout;
    hide OwnFree;
    if sites != [] {
      FaultStays(m, sites, defs);
      FlatStep(m, sites[0].instr, defs);
      InStepIffOwnFrees(Step(m, sites[0].instr, defs), sites[1..], defs);
    }
  }

  /**
   When the scan passes a module of the tracked fragment whose frees are its own, the program runs
   in flat memory without a fault: every byte it touches lies in one live block.
   */
  lemma {:induction false} PassIsSafeInFlatMemory(cfg: Config, fs: seq<Function>, gate: GateState)
    requires S.Decisive(cfg) && gate.mode.Off?
    requires S.Tracked(map[], ModuleSites(fs, 0), cfg)
    requires IsOutcome(cfg, RunModule(cfg, fs, 0, InitialState(gate)), Pass)
    requires OwnFrees(START, ModuleSites(fs, 0), cfg.defs)
    ensures Run(Flatten(START), ModuleSites(fs, 0), cfg.defs).fault.None?
  {
    S.ScanDecidesMachine(cfg, fs, gate, Pass);
    InStepIffOwnFrees(START, ModuleSites(fs, 0), cfg.defs);
  }

  // ------------------------------------------------------------ a foreign free

  function U64Operand(n: U64): Operand { Const(IntConst(64, n), IntegerType(64)) }

  function Pointer(n: nat): Operand { Local(Number(n), PointerType(0)) }

  function Direct(name: string): Callee { Fn(Const(GlobalRef(Named(name)), PointerType(0))) }

  /** Two blocks; a pointer moved from the first to the start of the second is freed; the second is written. */
  function ForeignFree(): seq<Instr> {
    [ Call(Direct("kmalloc"), [U64Operand(7)], Some(Number(0))),
      Call(Direct("kmalloc"), [U64Operand(8)], Some(Number(1))),
      GetElementPtr(Pointer(0), [U64Operand(1)], Number(2)),
      Call(Direct("kfree"), [Pointer(2)], None),
      Store(Pointer(1), U64Operand(0)) ]
  }

  function ForeignModule(): seq<Function> { [Function("f", [ForeignFree()])] }

  lemma ForeignSites(sites: seq<Site>)
    requires sites == ModuleSites(ForeignModule(), 0)
    ensures |sites| == 5 && forall i :: 0 <= i < 5 ==> sites[i].instr == ForeignFree()[i]
  {
    var f := ForeignModule()[0];
    assert FunctionSites(f, 1) == [] && ModuleSites(ForeignModule(), 1) == [];
  }

  lemma OneStep(m: State, sites: seq<Site>, i: nat, defs: Defs)
    requires Acyclic(defs) && i < |sites| && m.fault.None?
    ensures Run(m, sites[i..], defs) == Run(Step(m, sites[i].instr, defs), sites[i + 1..], defs)
  {
    hide Step;
    assert sites[i..][1..] == sites[i + 1..];
  }

  function TwoBlocks(flat: bool): State {
    State(map[Number(0) := Address(0, 0), Number(1) := Address(if flat then 0 else 1, 8)], map[],
          [HeapBlock(0, 7, true), HeapBlock(8, 8, true)], 17, None, flat)
  }

  lemma AllocateTwice(flat: bool)
    requires Acyclic(map[])
    ensures Step(START.(flat := flat), ForeignFree()[0], map[]).fault.None?
    ensures Step(Step(START.(flat := flat), ForeignFree()[0], map[]), ForeignFree()[1], map[]) == TwoBlocks(flat)
  {
  }

  lemma MoveAcross(flat: bool)
    requires Acyclic(map[])
    ensures Step(TwoBlocks(flat), ForeignFree()[2], map[]) == Define(TwoBlocks(flat), Number(2), Address(0, 8))
  {
    var indices := [U64Operand(1)];
    assert Delta(indices, 1, PointerType(0), map[]) == Some(0);
    assert Delta(indices, 0, PointerType(0), map[]) == Some(8);
  }

  lemma FreeAndWrite(flat: bool)
    requires Acyclic(map[])
    ensures var m := Step(Define(TwoBlocks(flat), Number(2), Address(0, 8)), ForeignFree()[3], map[]);
      && m.fault.None?
      && Step(m, ForeignFree()[4], map[]).fault == if flat then Some(UseAfterFreeFault) else None
  {
    var heap := TwoBlocks(flat).heap;
    assert Find(heap, 8) == Some(1);
    assert Find(heap[1 := heap[1].(live := false)], 8) == Some(1);
    assert SizeOf(IntegerType(64), map[]) == Some(8);
  }

  lemma {:induction false} ForeignRun(flat: bool, sites: seq<Site>)
    requires Acyclic(map[]) && sites == ModuleSites(ForeignModule(), 0)
    ensures Run(START.(flat := flat), sites, map[]).fault == if flat then Some(UseAfterFreeFault) else None
  {
    ForeignSites(sites);
    AllocateTwice(flat);
    MoveAcross(flat);
    FreeAndWrite(flat);
    var m0, m2 := START.(flat := flat), TwoBlocks(flat);
    var m1, m3 := Step(m0, sites[0].instr, map[]), Define(m2, Number(2), Address(0, 8));
    var m4 := Step(m3, sites[3].instr, map[]);
    assert m2.fault.None? && m3.fault.None?;
    hide *;
    OneStep(m0, sites, 0, map[]);
    OneStep(m1, sites, 1, map[]);
    OneStep(m2, sites, 2, map[]);
    OneStep(m3, sites, 3, map[]);
    OneStep(m4, sites, 4, map[]);
    assert sites[0..] == sites && sites[5..] == [];
    EndOfRun(Step(m4, sites[4].instr, map[]));
  }

  lemma EndOfRun(m: State)
    requires Acyclic(map[])
    ensures Run(m, [], map[]) == m
  {
  }

  /** Without its own frees a passing module can still fault in flat memory. */
  lemma {:induction false} ForeignFreeIsMissed(cfg: Config, gate: GateState, v: Verdict)
    requires S.Decisive(cfg) && gate.mode.Off? && cfg.defs == map[]
    requires IsOutcome(cfg, RunModule(cfg, ForeignModule(), 0, InitialState(gate)), v)
    ensures v.Pass?
    ensures Run(Flatten(START), ModuleSites(ForeignModule(), 0), cfg.defs).fault == Some(UseAfterFreeFault)
  {
    var sites := ModuleSites(ForeignModule(), 0);
    ForeignRun(false, sites);
    ForeignRun(true, sites);
    assert Flatten(START) == START.(flat := true);
    ForeignTracked(cfg, sites);
    S.ScanDecidesMachine(cfg, ForeignModule(), gate, v);
  }

  lemma {:induction false} ForeignTracked(cfg: Config, sites: seq<Site>)
    requires cfg.defs == map[] && sites == ModuleSites(ForeignModule(), 0)
    ensures S.Tracked(map[], sites, cfg)
  {
    ForeignSites(sites);
    var k1: S.Kinds := map[Number(0) := S.HeapPtr(false)];
    var k2 := k1[Number(1) := S.HeapPtr(false)];
    var k3 := k2[Number(2) := S.HeapPtr(false)];
    var indices := [U64Operand(1)];
    assert Delta(indices, 1, PointerType(0), map[]) == Some(0);
    assert S.CheckInstr(map[], sites[0].instr, cfg) == Some(k1);
    assert S.CheckInstr(k1, sites[1].instr, cfg) == Some(k2);
    assert S.CheckInstr(k2, sites[2].instr, cfg) == Some(k3);
    assert S.CheckInstr(k3, sites[3].instr, cfg) == Some(k3);
    assert SizeOf(IntegerType(64), map[]) == Some(8);
    assert S.CheckInstr(k3, sites[4].instr, cfg) == Some(k3);
    hide S.CheckInstr;
    assert sites[1..][1..] == sites[2..] && sites[2..][1..] == sites[3..] && sites[3..][1..] == sites[4..] && sites[4..][1..] == [];
    assert S.Tracked(k3, sites[4..], cfg);
    assert S.Tracked(k3, sites[3..], cfg);
    assert S.Tracked(k2, sites[2..], cfg);
    assert S.Tracked(k1, sites[1..], cfg);
  }
}
