/**
 How much the condition on frees is worth: an allocator that wants the start of a block, and what a
 free by a foreign address leads to.
 */
module Frees {
  import opened Common
  import opened Types
  import opened TypeSize
  import opened Ir
  import opened Gep
  import opened Gate
  import opened Scan
  import opened Machine
  import opened Flat
  import S = Simulation

  // ------------------------------------------------------------ frees by the start of a block

  /** The freed address is where its block starts. */
  predicate StartAddress(m: State, v: Value) {
    v.Address? && v.block < |m.heap| ==> v.addr == m.heap[v.block].base
  }

  predicate StartFree(m: State, instr: Instr) { IsKfree(instr) ==> StartAddress(m, Eval(m, instr.args[0])) }

  predicate StartFrees(m: State, sites: seq<Site>, defs: Defs)
    requires Acyclic(defs)
    decreases |sites|
  {
    sites == [] || (StartFree(m, sites[0].instr) && StartFrees(Step(m, sites[0].instr, defs), sites[1..], defs))
  }

  predicate IsBlockStart(heap: seq<HeapBlock>, addr: int) {
    exists k :: 0 <= k < |heap| && heap[k].base == addr
  }

  /** A free the allocator refuses: an address at which no block starts. */
  predicate Refused(u: State, instr: Instr) {
    IsKfree(instr) && Eval(u, instr.args[0]).Address? && !IsBlockStart(u.heap, Eval(u, instr.args[0]).addr)
  }

  /** Flat memory with an allocator that frees only by the start of a block. */
  function StrictStep(u: State, instr: Instr, defs: Defs): State
    requires Acyclic(defs)
  {
    if Refused(u, instr) then u.(fault := Some(OutOfBoundsFault)) else Step(u, instr, defs)
  }

  function StrictRun(u: State, sites: seq<Site>, defs: Defs): State
    requires Acyclic(defs)
    decreases |sites|
  {
    if sites == [] || u.fault.Some? then u else StrictRun(StrictStep(u, sites[0].instr, defs), sites[1..], defs)
  }

  /** A block start inside a block is the start of that block. */
  lemma OneStart(m: State, k: nat, addr: int)
    requires Layout(m) && k < |m.heap| && Covers(m.heap[k], addr) && IsBlockStart(m.heap, addr)
    ensures addr == m.heap[k].base
  {
    var j :| 0 <= j < |m.heap| && m.heap[j].base == addr;
    FindsOwn(m, k, addr);
    FindsOwn(m, j, addr);
  }

  lemma {:induction false} StrictStepIff(m: State, instr: Instr, defs: Defs)
    requires Acyclic(defs) && Layout(m) && m.fault.None? && Step(m, instr, defs).fault.None?
    ensures StartFree(m, instr) <==> StrictStep(Flatten(m), instr, defs) == Flatten(Step(m, instr, defs))
  {
    hide Step;
    FlatStep(m, instr, defs);
    if IsKfree(instr) {
      var v := Eval(m, instr.args[0]);
      EvalKnown(m, instr.args[0]);
      if v.Address? {
        if StartAddress(m, v) {
          assert Covers(m.heap[v.block], v.addr);
          assert IsBlockStart(m.heap, v.addr);
        } else if OwnAddress(m, v) && IsBlockStart(m.heap, v.addr) {
          OneStart(m, v.block, v.addr);
        }
      }
    }
  }

  ghost predicate InStrictStep(m: State, u: State, sites: seq<Site>, defs: Defs)
    requires Acyclic(defs)
    decreases |sites|
  {
    u == Flatten(m) &&
    (sites == [] ||
     InStrictStep(Step(m, sites[0].instr, defs), StrictStep(u, sites[0].instr, defs), sites[1..], defs))
  }

  /** With such an allocator the machines stay in step exactly when every freed pointer is a block's own start. */
  lemma {:induction false} InStrictStepIff(m: State, sites: seq<Site>, defs: Defs)
    requires Acyclic(defs) && Layout(m) && m.fault.None? && Run(m, sites, defs).fault.None?
    ensures InStrictStep(m, Flatten(m), sites, defs) <==> StartFrees(m, sites, defs)
    ensures StartFrees(m, sites, defs) ==> StrictRun(Flatten(m), sites, defs) == Flatten(Run(m, sites, defs))
    decreases |sites|
  {
    hide Step;
    hide StrictStep;
    hide Layout;
    hide StartFree;
    if sites != [] {
      FaultStays(m, sites, defs);
      FlatStep(m, sites[0].instr, defs);
      StrictStepIff(m, sites[0].instr, defs);
      InStrictStepIff(Step(m, sites[0].instr, defs), sites[1..], defs);
    }
  }

  /** In the scan's terms: the freed pointer has offset 0. */
  lemma StartIsOffsetZero(cfg: Config, ks: S.Kinds, s: ScanState, m: State, instr: Instr)
    requires S.Related(ks, s, m) && S.CheckInstr(ks, instr, cfg).Some? && IsKfree(instr)
    ensures instr.args[0].Local? && instr.args[0].name in s.ptrs && s.ptrs[instr.args[0].name].KmallocPtr?
    ensures StartFree(m, instr) <==> s.ptrs[instr.args[0].name].offset == 0
  {
    hide S.Related;
    S.Known(ks, s, m, instr.args[0].name);
  }

  /** A passing module of the fragment that frees only block starts runs without a fault. */
  lemma {:induction false} PassIsSafeForStrictAllocator(cfg: Config, fs: seq<Function>, gate: GateState)
    requires S.Decisive(cfg) && gate.mode.Off?
    requires S.Tracked(map[], ModuleSites(fs, 0), cfg)
    requires IsOutcome(cfg, RunModule(cfg, fs, 0, InitialState(gate)), Pass)
    requires StartFrees(START, ModuleSites(fs, 0), cfg.defs)
    ensures StrictRun(Flatten(START), ModuleSites(fs, 0), cfg.defs).fault.None?
  {
    S.ScanDecidesMachine(cfg, fs, gate, Pass);
    InStrictStepIff(START, ModuleSites(fs, 0), cfg.defs);
  }

  // ------------------------------------------------------------ every block keeps a name

  predicate Allocates(instr: Instr) {
    || IsCallTo(instr, "kmalloc") || IsCallTo(instr, "kzalloc") || IsCallTo(instr, "kcalloc")
    || IsCallTo(instr, "dma_alloc_coherent")
  }

  /** Every allocation of the stream has a result name. */
  predicate NamesAllocations(sites: seq<Site>) {
    forall i :: 0 <= i < |sites| && Allocates(sites[i].instr) ==> sites[i].instr.result.Some?
  }

  /** `n` holds the start of block `k`. */
  predicate Owner(ks: S.Kinds, m: State, k: nat, n: Name)
    requires k < |m.heap|
  {
    n in ks && ks[n].HeapPtr? && n in m.regs && m.regs[n] == Address(k, m.heap[k].base)
  }

  ghost predicate HasOwner(ks: S.Kinds, m: State, k: nat) { k < |m.heap| && exists n :: Owner(ks, m, k, n) }

  ghost predicate Owned(ks: S.Kinds, m: State) { forall k :: 0 <= k < |m.heap| ==> HasOwner(ks, m, k) }

  lemma DefineKeepsOwner(ks: S.Kinds, m: State, dest: Option<Name>, v: Value, kind: S.Kind, k: nat, n: Name)
    requires k < |m.heap| && Owner(ks, m, k, n) && S.FreshResult(ks, dest, kind).Some?
    ensures Owner(S.FreshResult(ks, dest, kind).value, DefineResult(m, dest, v), k, n)
  {
  }

  /** No call moves a block or renames a register before it names its result. */
  predicate SameStarts(m: State, u: State) {
    && u.regs == m.regs && |m.heap| <= |u.heap|
    && forall k :: 0 <= k < |m.heap| ==> u.heap[k].base == m.heap[k].base
  }

  lemma TouchSameStarts(m: State, v: Value, len: nat)
    ensures SameStarts(m, Touch(m, v, len))
  {
  }

  lemma ReleaseSameStarts(m: State, v: Value)
    ensures SameStarts(m, Release(m, v))
  {
  }

  lemma KeepOwner(ks: S.Kinds, m: State, u: State, dest: Option<Name>, v: Value, kind: S.Kind, next: S.Kinds, k: nat, n: Name)
    requires k < |m.heap| && Owner(ks, m, k, n) && SameStarts(m, u) && S.FreshResult(ks, dest, kind) == Some(next)
    ensures k < |DefineResult(u, dest, v).heap| && Owner(next, DefineResult(u, dest, v), k, n)
  {
    DefineKeepsOwner(ks, u, dest, v, kind, k, n);
  }

  lemma NewKeepsOwner(ks: S.Kinds, m: State, size: U64, dest: Option<Name>, kind: S.Kind, next: S.Kinds, k: nat, n: Name)
    requires k < |m.heap| && Owner(ks, m, k, n) && S.FreshResult(ks, dest, kind) == Some(next)
    ensures k < |New(m, size, dest).heap| && Owner(next, New(m, size, dest), k, n)
  {
    var u := m.(heap := m.heap + [HeapBlock(m.brk, size, true)], brk := m.brk + size + 1);
    KeepOwner(ks, m, u, dest, Address(if m.flat then 0 else |m.heap|, m.brk), kind, next, k, n);
  }

  lemma {:induction false} CallKeepsOwner(asm: AsmPolicy, ks: S.Kinds, m: State, callee: Callee, args: seq<Operand>, dest: Option<Name>, next: S.Kinds, k: nat, n: Name)
    requires S.CheckCall(ks, asm, callee, args, dest) == Some(next) && k < |m.heap| && Owner(ks, m, k, n)
    ensures var t := StepCall(m, callee, args, dest); k < |t.heap| && Owner(next, t, k, n)
  {
    hide RoutineNamed;
    hide IsSafeAsm;
    hide CheckedMul;
    hide Touch;
    hide Release;
    hide New;
    hide DefineResult;
    hide S.FreshResult;
    hide SameStarts;
    hide Owner;
    hide Eval;
    NothingMoves(m);
    var name := CalleeName(callee);
    if name.None? {
      KeepOwner(ks, m, m, dest, Junk, S.Plain, next, k, n);
    } else {
      match RoutineNamed(name.value)
      case Kmalloc => NewKeepsOwner(ks, m, ConstU64(args[0]).value, dest, S.HeapPtr(false), next, k, n);
      case Kcalloc =>
        var size := CheckedMul(ConstU64(args[0]).value, ConstU64(args[1]).value).value;
        NewKeepsOwner(ks, m, size, dest, S.HeapPtr(false), next, k, n);
      case DmaAlloc => NewKeepsOwner(ks, m, ConstU64(args[1]).value, dest, S.HeapPtr(true), next, k, n);
      case Kfree =>
        ReleaseSameStarts(m, Eval(m, args[0]));
        KeepOwner(ks, m, Release(m, Eval(m, args[0])), dest, Junk, S.Plain, next, k, n);
      case Memset =>
        TouchSameStarts(m, Eval(m, args[0]), ConstU64(args[2]).value);
        KeepOwner(ks, m, Touch(m, Eval(m, args[0]), ConstU64(args[2]).value), dest, Junk, S.Plain, next, k, n);
      case Memcpy =>
        var len := ConstU64(args[2]).value;
        var u := Touch(m, Eval(m, args[0]), len);
        TouchSameStarts(m, Eval(m, args[0]), len);
        TouchSameStarts(u, Eval(u, args[1]), len);
        StartsCompose(m, u, Touch(u, Eval(u, args[1]), len));
        KeepOwner(ks, m, if u.fault.Some? then u else Touch(u, Eval(u, args[1]), len), dest, Junk, S.Plain, next, k, n);
      case _ => KeepOwner(ks, m, m, dest, Junk, S.Plain, next, k, n);
    }
  }

  lemma NothingMoves(m: State)
    ensures SameStarts(m, m)
  {
  }

  lemma StartsCompose(m: State, u: State, w: State)
    requires SameStarts(m, u) && SameStarts(u, w)
    ensures SameStarts(m, w)
  {
  }

  lemma NewIsOwned(ks: S.Kinds, m: State, size: U64, dest: Option<Name>, kind: S.Kind, next: S.Kinds)
    requires !m.flat && dest.Some? && kind.HeapPtr? && S.FreshResult(ks, dest, kind) == Some(next)
    ensures |New(m, size, dest).heap| == |m.heap| + 1 && Owner(next, New(m, size, dest), |m.heap|, dest.value)
  {
  }

  lemma TouchLength()
    ensures forall u: State, v: Value, len: nat :: |Touch(u, v, len).heap| == |u.heap|
  {
  }

  lemma ReleaseLength()
    ensures forall u: State, v: Value :: |Release(u, v).heap| == |u.heap|
  {
  }

  lemma ResultLength()
    ensures forall u: State, dest: Option<Name>, v: Value :: DefineResult(u, dest, v).heap == u.heap
  {
  }

  lemma {:induction false} NewOwner(asm: AsmPolicy, ks: S.Kinds, m: State, callee: Callee, args: seq<Operand>, dest: Option<Name>, next: S.Kinds)
    requires !m.flat && S.CheckCall(ks, asm, callee, args, dest) == Some(next)
    requires Allocates(Call(callee, args, dest)) ==> dest.Some?
    ensures var t := StepCall(m, callee, args, dest);
      |t.heap| == |m.heap| || (|t.heap| == |m.heap| + 1 && dest.Some? && Owner(next, t, |m.heap|, dest.value))
  {
    if CalleeName(callee).Some? {
      RoutineByName(Call(callee, args, dest));
    }
    hide IsSafeAsm;
    hide CheckedMul;
    hide RoutineNamed;
    hide Touch;
    hide Release;
    hide New;
    hide DefineResult;
    hide S.FreshResult;
    hide Owner;
    hide Eval;
    TouchLength();
    ReleaseLength();
    ResultLength();
    var name := CalleeName(callee);
    if name.Some? {
      match RoutineNamed(name.value)
      case Kmalloc => NewIsOwned(ks, m, ConstU64(args[0]).value, dest, S.HeapPtr(false), next);
      case Kcalloc =>
        var size := CheckedMul(ConstU64(args[0]).value, ConstU64(args[1]).value).value;
        NewIsOwned(ks, m, size, dest, S.HeapPtr(false), next);
      case DmaAlloc => NewIsOwned(ks, m, ConstU64(args[1]).value, dest, S.HeapPtr(true), next);
      case _ =>
    }
  }

  lemma {:induction false} StepKeepsOwner(cfg: Config, ks: S.Kinds, m: State, instr: Instr, next: S.Kinds, k: nat, n: Name)
    requires !m.flat && S.CheckInstr(ks, instr, cfg) == Some(next) && k < |m.heap| && Owner(ks, m, k, n)
    ensures var t := Step(m, instr, cfg.defs); k < |t.heap| && Owner(next, t, k, n)
  {
    hide StepCall;
    hide S.CheckCall;
    hide Delta;
    hide SizeOf;
    if instr.Call? {
      CallKeepsOwner(cfg.asmPolicy, ks, m, instr.callee, instr.args, instr.result, next, k, n);
    }
  }

  lemma {:induction false} HeapGrows(cfg: Config, ks: S.Kinds, m: State, instr: Instr, next: S.Kinds)
    requires !m.flat && S.CheckInstr(ks, instr, cfg) == Some(next)
    requires Allocates(instr) ==> instr.result.Some?
    ensures var t := Step(m, instr, cfg.defs);
      |t.heap| == |m.heap| || (|t.heap| == |m.heap| + 1 && HasOwner(next, t, |m.heap|))
  {
    hide StepCall;
    hide S.CheckCall;
    hide Delta;
    hide SizeOf;
    if instr.Call? {
      NewOwner(cfg.asmPolicy, ks, m, instr.callee, instr.args, instr.result, next);
    }
  }

  lemma {:induction false} OwnedStep(cfg: Config, ks: S.Kinds, m: State, instr: Instr, next: S.Kinds)
    requires !m.flat && S.CheckInstr(ks, instr, cfg) == Some(next) && Owned(ks, m)
    requires Allocates(instr) ==> instr.result.Some?
    ensures Owned(next, Step(m, instr, cfg.defs))
  {
    hide Step;
    hide S.CheckInstr;
    var t := Step(m, instr, cfg.defs);
    HeapGrows(cfg, ks, m, instr, next);
    forall k | 0 <= k < |t.heap| ensures HasOwner(next, t, k) {
      if k < |m.heap| {
        assert HasOwner(ks, m, k);
        var n :| Owner(ks, m, k, n);
        StepKeepsOwner(cfg, ks, m, instr, next, k, n);
      }
    }
  }

  // ------------------------------------------------------------ streams

  /** The kinds after a stream, or `None` when it leaves the fragment. */
  function KindsAfter(ks: S.Kinds, sites: seq<Site>, cfg: Config): Option<S.Kinds>
    decreases |sites|
  {
    if sites == [] then Some(ks) else
    var next := S.CheckInstr(ks, sites[0].instr, cfg);
    if next.None? then None else KindsAfter(next.value, sites[1..], cfg)
  }

  lemma {:induction false} TrackedConcat(ks: S.Kinds, a: seq<Site>, b: seq<Site>, cfg: Config)
    ensures S.Tracked(ks, a, cfg) <==> KindsAfter(ks, a, cfg).Some?
    ensures S.Tracked(ks, a + b, cfg) <==>
      KindsAfter(ks, a, cfg).Some? && S.Tracked(KindsAfter(ks, a, cfg).value, b, cfg)
    decreases |a|
  {
    hide S.CheckInstr;
    if a == [] {
      assert a + b == b;
    } else {
      assert (a + b)[1..] == a[1..] + b;
      var next := S.CheckInstr(ks, a[0].instr, cfg);
      if next.Some? {
        TrackedConcat(next.value, a[1..], b, cfg);
      }
    }
  }

  lemma {:induction false} RunConcat(m: State, a: seq<Site>, b: seq<Site>, defs: Defs)
    requires Acyclic(defs)
    ensures Run(m, a + b, defs) == Run(Run(m, a, defs), b, defs)
    decreases |a|
  {
    hide Step;
    if a == [] {
      assert a + b == b;
    } else if m.fault.None? {
      assert (a + b)[1..] == a[1..] + b;
      RunConcat(Step(m, a[0].instr, defs), a[1..], b, defs);
    }
  }

  lemma {:induction false} OwnedRun(cfg: Config, ks: S.Kinds, m: State, sites: seq<Site>, next: S.Kinds)
    requires Layout(m) && m.fault.None? && Owned(ks, m)
    requires KindsAfter(ks, sites, cfg) == Some(next) && NamesAllocations(sites) && Run(m, sites, cfg.defs).fault.None?
    ensures var t := Run(m, sites, cfg.defs); Layout(t) && Owned(next, t)
    decreases |sites|
  {
    hide Step;
    hide S.CheckInstr;
    hide Owned;
    hide Allocates;
    if sites != [] {
      var k := S.CheckInstr(ks, sites[0].instr, cfg).value;
      FaultStays(m, sites, cfg.defs);
      FlatStep(m, sites[0].instr, cfg.defs);
      OwnedStep(cfg, ks, m, sites[0].instr, k);
      assert forall i :: 0 <= i < |sites[1..]| ==> sites[1..][i] == sites[i + 1];
      OwnedRun(cfg, k, Step(m, sites[0].instr, cfg.defs), sites[1..], next);
    }
  }

  // ------------------------------------------------------------ what a foreign free leads to

  /** Storing no bytes through the name of a block. */
  function Probe(n: Name): Instr { Store(Local(n, PointerType(0)), Const(OtherConst, ArrayType(IntegerType(8), 0))) }

  lemma ProbeSize(defs: Defs)
    requires Acyclic(defs)
    ensures SizeOf(ArrayType(IntegerType(8), 0), defs) == Some(0)
  {
    assert SizeOf(IntegerType(8), defs) == Some(1);
  }

  /** The machine with blocks lets the store of no bytes to a live block pass. */
  lemma ProbePasses(ks: S.Kinds, t: State, k: nat, n: Name, cfg: Config)
    requires !t.flat && t.fault.None? && k < |t.heap| && t.heap[k].live && Owner(ks, t, k, n)
    ensures S.CheckInstr(ks, Probe(n), cfg) == Some(ks) && Step(t, Probe(n), cfg.defs) == t
  {
    ProbeSize(cfg.defs);
    hide SizeOf;
  }

  /** In flat memory it faults when the block is dead. */
  lemma ProbeFaults(u: State, n: Name, k: nat, defs: Defs)
    requires Acyclic(defs) && u.flat && n in u.regs && u.regs[n].Address? && Find(u.heap, u.regs[n].addr) == Some(k)
    requires k < |u.heap| && !u.heap[k].live
    ensures Step(u, Probe(n), defs).fault.Some?
  {
    ProbeSize(defs);
    hide SizeOf;
  }

  lemma KfreeIs(m: State, instr: Instr, defs: Defs)
    requires Acyclic(defs) && IsKfree(instr)
    ensures Step(m, instr, defs) == DefineResult(Release(m, Eval(m, instr.args[0])), instr.result, Junk)
  {
    hide Release;
    hide DefineResult;
    RoutineByName(instr);
    hide RoutineNamed;
  }

  /** Freeing by a foreign address faults in flat memory, or frees another block that is live. */
  lemma ForeignReleaseHits(m: State, v: Value) returns (k: nat)
    requires Layout(m) && m.fault.None? && KnownBlock(v, |m.heap|) && Release(m, v).fault.None? && !OwnAddress(m, v)
    ensures var t, u := Release(m, v), Release(Flatten(m), Erase(v));
      u.fault.Some? ||
      (&& k < |m.heap| && |t.heap| == |u.heap| == |m.heap| && t.heap[k].live && !u.heap[k].live && u.flat
       && Find(u.heap, m.heap[k].base) == Some(k) && t.heap[k].base == m.heap[k].base && u.regs == EraseAll(m.regs))
  {
    var found := Find(m.heap, v.addr);
    k := 0;
    if found.Some? && m.heap[found.value].live {
      k := found.value;
      var w := m.(heap := m.heap[k := m.heap[k].(live := false)]);
      assert Layout(w);
      FindsOwn(w, k, m.heap[k].base);
    }
  }

  lemma {:induction false} ForeignFreeHits(m: State, instr: Instr, defs: Defs) returns (k: nat)
    requires Acyclic(defs) && Layout(m) && m.fault.None? && Step(m, instr, defs).fault.None? && !OwnFree(m, instr)
    ensures var t, u := Step(m, instr, defs), Step(Flatten(m), instr, defs);
      u.fault.Some? ||
      (&& k < |m.heap| && |t.heap| == |u.heap| == |m.heap| && t.heap[k].live && !u.heap[k].live && u.flat
       && Find(u.heap, m.heap[k].base) == Some(k) && t.heap[k].base == m.heap[k].base
       && forall n :: n in m.regs && instr.result != Some(n) ==> n in u.regs && u.regs[n] == Erase(m.regs[n]))
  {
    KfreeIs(m, instr, defs);
    KfreeIs(Flatten(m), instr, defs);
    EvalKnown(m, instr.args[0]);
    hide Step;
    hide Release;
    hide Layout;
    hide Find;
    hide OwnAddress;
    k := ForeignReleaseHits(m, Eval(m, instr.args[0]));
  }

  /** A stream whose frees are its own, followed by a foreign free that the machine with blocks accepts. */
  ghost predicate EndsInForeignFree(cfg: Config, sites: seq<Site>, x: Site) {
    && S.Tracked(map[], sites + [x], cfg) && NamesAllocations(sites)
    && Run(START, sites + [x], cfg.defs).fault.None?
    && OwnFrees(START, sites, cfg.defs) && !OwnFree(Run(START, sites, cfg.defs), x.instr)
  }

  /** The scan passes the stream and flat memory does not. */
  ghost predicate FaultsOnlyInFlatMemory(cfg: Config, sites: seq<Site>) {
    && S.Tracked(map[], sites, cfg)
    && Run(START, sites, cfg.defs).fault.None? && Run(Flatten(START), sites, cfg.defs).fault.Some?
  }

  lemma {:induction false} RunOne(m: State, x: Site, defs: Defs)
    requires Acyclic(defs) && m.fault.None?
    ensures Run(m, [x], defs) == Step(m, x.instr, defs)
  {
    hide Step;
    assert [x][1..] == [];
    assert Run(Step(m, x.instr, defs), [], defs) == Step(m, x.instr, defs);
  }

  lemma {:induction false} TrackedOne(ks: S.Kinds, x: Site, cfg: Config)
    ensures S.Tracked(ks, [x], cfg) <==> S.CheckInstr(ks, x.instr, cfg).Some?
    ensures KindsAfter(ks, [x], cfg) == S.CheckInstr(ks, x.instr, cfg)
  {
    hide S.CheckInstr;
    assert [x][1..] == [];
    var next := S.CheckInstr(ks, x.instr, cfg);
    if next.Some? {
      assert KindsAfter(next.value, [], cfg) == next && S.Tracked(next.value, [], cfg);
    }
  }

  /** Where things stand just before the foreign free. */
  lemma {:induction false} BeforeForeignFree(cfg: Config, sites: seq<Site>, x: Site) returns (ks: S.Kinds, next: S.Kinds)
    requires EndsInForeignFree(cfg, sites, x)
    ensures KindsAfter(map[], sites, cfg) == Some(ks) && S.CheckInstr(ks, x.instr, cfg) == Some(next)
    ensures var m := Run(START, sites, cfg.defs);
      && Layout(m) && Owned(ks, m) && m.fault.None? && Step(m, x.instr, cfg.defs).fault.None?
      && Run(Flatten(START), sites, cfg.defs) == Flatten(m)
  {
    hide Step;
    hide S.CheckInstr;
    hide OwnFree;
    var m := Run(START, sites, cfg.defs);
    TrackedConcat(map[], sites, [x], cfg);
    ks := KindsAfter(map[], sites, cfg).value;
    TrackedOne(ks, x, cfg);
    next := S.CheckInstr(ks, x.instr, cfg).value;
    RunConcat(START, sites, [x], cfg.defs);
    RunOne(m.(fault := None), x, cfg.defs);
    OwnedRun(cfg, map[], START, sites, ks);
    InStepIffOwnFrees(START, sites, cfg.defs);
  }

  /**
   In a stream whose allocations are named, the first free by a foreign address has a continuation
   that the scan passes and that faults in flat memory: at the free itself, or at a store of no
   bytes to the block that was freed by mistake.
   */
  lemma {:induction false} ForeignFreeCanFault(cfg: Config, sites: seq<Site>, x: Site) returns (tail: seq<Site>)
    requires EndsInForeignFree(cfg, sites, x)
    ensures FaultsOnlyInFlatMemory(cfg, sites + [x] + tail)
  {
    hide Layout;
    hide S.CheckInstr;
    hide Find;
    var ks, next := BeforeForeignFree(cfg, sites, x);
    var m := Run(START, sites, cfg.defs);
    var k := ForeignFreeHits(m, x.instr, cfg.defs);
    var t, u := Step(m, x.instr, cfg.defs), Step(Flatten(m), x.instr, cfg.defs);
    tail := [];
    if u.fault.None? {
      assert HasOwner(ks, m, k);
      var n :| Owner(ks, m, k, n);
      ResultIsFresh(ks, x.instr, cfg, n);
      StepKeepsOwner(cfg, ks, m, x.instr, next, k, n);
      ProbePasses(next, t, k, n, cfg);
      ProbeFaults(u, n, k, cfg.defs);
      tail := [Site(x.at, Probe(n))];
    }
    hide Step;
    assert sites + [x] + tail == sites + ([x] + tail);
    TrackedConcat(map[], sites, [x] + tail, cfg);
    RunConcat(START, sites, [x] + tail, cfg.defs);
    RunConcat(Flatten(START), sites, [x] + tail, cfg.defs);
    TailRuns(cfg, ks, next, m, x, tail);
  }

  /** The free and what follows it, on both machines. */
  lemma {:induction false} TailRuns(cfg: Config, ks: S.Kinds, next: S.Kinds, m: State, x: Site, tail: seq<Site>)
    requires m.fault.None? && |tail| <= 1 && S.CheckInstr(ks, x.instr, cfg) == Some(next)
    ensures S.Tracked(ks, [x] + tail, cfg) <==> tail == [] || S.CheckInstr(next, tail[0].instr, cfg).Some?
    ensures var t := Step(m, x.instr, cfg.defs);
      Run(m, [x] + tail, cfg.defs) == if tail == [] || t.fault.Some? then t else Step(t, tail[0].instr, cfg.defs)
    ensures var u := Step(Flatten(m), x.instr, cfg.defs);
      Run(Flatten(m), [x] + tail, cfg.defs) == if tail == [] || u.fault.Some? then u else Step(u, tail[0].instr, cfg.defs)
  {
    hide Step;
    hide S.CheckInstr;
    TrackedConcat(ks, [x], tail, cfg);
    TrackedOne(ks, x, cfg);
    RunConcat(m, [x], tail, cfg.defs);
    RunConcat(Flatten(m), [x], tail, cfg.defs);
    RunOne(m, x, cfg.defs);
    RunOne(Flatten(m), x, cfg.defs);
    var t, u := Step(m, x.instr, cfg.defs), Step(Flatten(m), x.instr, cfg.defs);
    if tail != [] {
      assert tail == [tail[0]];
      TrackedOne(next, tail[0], cfg);
      if t.fault.None? {
        RunOne(t, tail[0], cfg.defs);
      }
      if u.fault.None? {
        RunOne(u, tail[0], cfg.defs);
      }
    }
  }

  lemma ResultIsFresh(ks: S.Kinds, instr: Instr, cfg: Config, n: Name)
    requires instr.Call? && S.CheckInstr(ks, instr, cfg).Some? && n in ks
    ensures instr.result != Some(n)
  {
    hide RoutineNamed;
    hide IsSafeAsm;
    hide CheckedMul;
  }
}
