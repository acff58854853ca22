/**
 What the verdict means, outside the tracked fragment as well: for every configuration, gate and
 stream, when the scan passes, when it fails, and hence when it answers unknown. The conditions are
 stated on the instruction, by the names and argument positions it is written with, and on the
 pointers, sizes and freed blocks the scan knows at that point.
 */
module Verdicts {
  import opened Common
  import opened Types
  import opened TypeSize
  import opened Ir
  import opened Gep
  import opened Gate
  import opened Scan
  import opened ScanFacts
  import opened Iommu

  // ------------------------------------------------------------ conditions on the text

  /** Argument `i` is an integer constant. */
  predicate IsInt(args: seq<Operand>, i: nat) { i < |args| && args[i].Const? && args[i].c.IntConst? }

  function IntValue(args: seq<Operand>, i: nat): U64
    requires IsInt(args, i)
  {
    args[i].c.value
  }

  predicate AllocatorOk(instr: Instr)
    requires instr.Call?
  {
    && (IsCallTo(instr, "kmalloc") || IsCallTo(instr, "kzalloc") ==> IsInt(instr.args, 0))
    && (IsCallTo(instr, "kcalloc") ==>
          && IsInt(instr.args, 0) && IsInt(instr.args, 1)
          && IntValue(instr.args, 0) * IntValue(instr.args, 1) < 0x1_0000_0000_0000_0000)
    && (IsCallTo(instr, "kfree") ==> |instr.args| >= 1 && instr.args[0].Local?)
  }

  predicate BlockRoutineOk(instr: Instr)
    requires instr.Call?
  {
    && (IsCallTo(instr, "memset") && |instr.args| >= 1 ==>
          |instr.args| >= 3 && (instr.args[0].Local? ==> IsInt(instr.args, 2)))
    && ((IsCallTo(instr, "memcpy") || IsCallTo(instr, "__memcpy")) && |instr.args| >= 1 ==> IsInt(instr.args, 2))
  }

  predicate DmaRoutineOk(dma: DmaPolicy, instr: Instr)
    requires instr.Call?
  {
    dma.Ignore? ||
    (&& (IsCallTo(instr, "dma_alloc_coherent") ==> IsInt(instr.args, 1))
     && (IsCallTo(instr, "dma_map_single") ==> IsInt(instr.args, 2)))
  }

  /** What an instruction must look like for the scan to go on without a remark. */
  predicate TextOk(cfg: Config, instr: Instr) {
    match instr
    case Call(callee, _, _) =>
      && AllocatorOk(instr) && BlockRoutineOk(instr) && DmaRoutineOk(cfg.dma, instr)
      && (callee.Asm? ==> cfg.asmPolicy.Conservative? && IsSafeAsm(callee.text))
    case GetElementPtr(base, _, _) => base.Local?
    case PtrToInt(op, _) => op.Local?
    case IntToPtr(op, _) => op.Local?
    case BitCast(op, _) => op.Local?
    case _ => true
  }

  // ------------------------------------------------------------ conditions on what is known

  /** The pointer the scan knows an operand by. */
  function PointerOf(s: ScanState, op: Operand): PtrVal {
    if op.Local? && op.name in s.ptrs then s.ptrs[op.name] else UnknownPtr
  }

  /** The base of a `getelementptr` may also be a slot, which stands for what was spilled there. */
  function BaseOf(s: ScanState, base: Operand): PtrVal {
    if base.Local? && base.name !in s.ptrs && base.name in s.slots then s.slots[base.name] else PointerOf(s, base)
  }

  /** The pointer a load goes through; a slot that is loaded into itself is read first. */
  function LoadPointer(s: ScanState, address: Operand, dest: Name): PtrVal {
    if address.Local? && address.name == dest && dest in s.slotNames && dest in s.slots then s.slots[dest]
    else PointerOf(s, address)
  }

  predicate IsConst(op: Operand) { op.Const? && op.c.IntConst? }

  predicate KnowsInt(s: ScanState, op: Operand) { op.Local? && op.name in s.ints }

  predicate FromPointer(s: ScanState, op: Operand) { KnowsInt(s, op) && s.ints[op.name].PtrOffset? }

  /** One access the scan checks: `len` bytes (if the type has a size) at an offset of a block. */
  datatype Check = Check(kind: VcKind, id: nat, offset: int, len: Option<U64>, mustLive: bool, cls: string)

  function BlockCheck(s: ScanState, k: VcKind, op: Operand, n: U64): seq<Check> {
    var p := PointerOf(s, op);
    if p.KmallocPtr? then [Check(k, p.id, p.offset, Some(n), true, SizedClass(KindText(k), n))] else []
  }

  function TypedCheck(k: VcKind, p: PtrVal, n: Option<U64>): seq<Check> {
    if p.UnknownPtr? then []
    else [Check(k, p.id, p.offset, n, true, if n.Some? then SizedClass(KindText(k), n.value) else "")]
  }

  function CallChecks(dma: DmaPolicy, s: ScanState, instr: Instr): seq<Check>
    requires instr.Call?
  {
    var args := instr.args;
    if !IsInt(args, 2) then []
    else if IsCallTo(instr, "memset") then BlockCheck(s, MemsetVc, args[0], IntValue(args, 2))
    else if IsCallTo(instr, "memcpy") || IsCallTo(instr, "__memcpy") then
      BlockCheck(s, MemcpyDestVc, args[0], IntValue(args, 2)) + BlockCheck(s, MemcpySourceVc, args[1], IntValue(args, 2))
    else if IsCallTo(instr, "dma_map_single") && !dma.Ignore? && !PointerOf(s, args[1]).UnknownPtr? then
      var p, n := PointerOf(s, args[1]), IntValue(args, 2);
      [Check(DmaMapVc, p.id, p.offset, Some(n), false, SizedClass("dma_bounds", n))]
    else []
  }

  /** The accesses of an instruction, in the order they are checked. */
  function Checks(cfg: Config, s: ScanState, instr: Instr): seq<Check> {
    match instr
    case Call(_, _, _) => CallChecks(cfg.dma, s, instr)
    case Store(address, value) => TypedCheck(StoreVc, PointerOf(s, address), SizeOf(TypeOf(value), cfg.defs))
    case Load(address, ty, dest) => TypedCheck(LoadVc, LoadPointer(s, address, dest), SizeOf(ty, cfg.defs))
    case _ => []
  }

  /** The gate lets the solver run: it is off, or a person approved the condition or its class. */
  predicate Cleared(s: ScanState, at: Loc, c: Check) {
    s.gate.mode.Off? || VcId(at, c.kind) in s.gate.approved || c.cls in s.gate.approvedClasses
  }

  predicate InBounds(s: ScanState, c: Check) {
    c.len.Some? && c.id in s.sizes && 0 <= c.offset && c.offset + c.len.value <= s.sizes[c.id]
  }

  predicate Live(s: ScanState, c: Check) { c.mustLive ==> c.id !in s.freed }

  /** Solver call number `n` proves the access in bounds of a live block. */
  predicate Proved(cfg: Config, s: ScanState, at: Loc, c: Check, n: nat) {
    Live(s, c) && InBounds(s, c) && Cleared(s, at, c) && n !in cfg.timeouts
  }

  /** The block is gone, or solver call number `n` finds the access out of bounds. */
  predicate Refuted(cfg: Config, s: ScanState, at: Loc, c: Check, n: nat) {
    !Live(s, c) || (c.len.Some? && !InBounds(s, c) && Cleared(s, at, c) && n !in cfg.timeouts)
  }

  /** The number of the solver call for check `i`: one more for each cleared check before it. */
  function Ordinal(s: ScanState, at: Loc, cs: seq<Check>, i: nat): nat
    requires i < |cs|
  {
    s.checks + (if i > 0 && Cleared(s, at, cs[0]) then 1 else 0)
  }

  predicate DoubleFrees(s: ScanState, instr: Instr) {
    && IsCallTo(instr, "kfree") && |instr.args| >= 1
    && PointerOf(s, instr.args[0]).KmallocPtr? && PointerOf(s, instr.args[0]).id in s.freed
  }

  /** Pointer arithmetic the scan can follow. */
  predicate Followed(cfg: Config, s: ScanState, instr: Instr) {
    match instr
    case GetElementPtr(base, indices, _) =>
      || BaseOf(s, base).UnknownPtr?
      || (&& (forall i :: 0 <= i < |indices| ==> IsConst(indices[i]))
          && (indices != [] ==> TypeOf(base).PointerType? || SizeOf(TypeOf(base), cfg.defs).Some?))
    case Add(op0, op1, _) =>
      || (FromPointer(s, op0) && IsConst(op1)) || (FromPointer(s, op1) && !FromPointer(s, op0) && IsConst(op0))
      || (!KnowsInt(s, op0) && !KnowsInt(s, op1))
    case Sub(op0, op1, _) => !KnowsInt(s, op1) && (KnowsInt(s, op0) ==> FromPointer(s, op0) && IsConst(op1))
    case _ => true
  }

  predicate IsAccess(instr: Instr) { instr.Store? || instr.Load? }

  /** The instruction leaves a passing scan passing. */
  predicate Clean(cfg: Config, s: ScanState, at: Loc, instr: Instr) {
    var cs := Checks(cfg, s, instr);
    && TextOk(cfg, instr) && Followed(cfg, s, instr) && !DoubleFrees(s, instr)
    && (forall i :: 0 <= i < |cs| ==> Proved(cfg, s, at, cs[i], s.checks + i))
    && (cfg.irqRisk && IsAccess(instr) ==> cs == [])
  }

  predicate Overflows(instr: Instr) {
    && IsCallTo(instr, "kcalloc") && IsInt(instr.args, 0) && IsInt(instr.args, 1)
    && IntValue(instr.args, 0) * IntValue(instr.args, 1) >= 0x1_0000_0000_0000_0000
  }

  /** The instruction makes the scan fail. */
  predicate Faulty(cfg: Config, s: ScanState, at: Loc, instr: Instr) {
    var cs := Checks(cfg, s, instr);
    || Overflows(instr) || DoubleFrees(s, instr)
    || (instr.Call? && instr.callee.Asm? && cfg.asmPolicy.Trap?)
    || exists i :: 0 <= i < |cs| && Refuted(cfg, s, at, cs[i], Ordinal(s, at, cs, i))
  }

  // ------------------------------------------------------------ one check

  lemma CheckVerdict(cfg: Config, s: ScanState, size: U64, offset: int, len: U64, vc: string, cls: string, k: VcKind, at: Loc)
    requires !s.verdict.Fail?
    ensures var (u, r) := CheckAccess(cfg, s, size, offset, len, vc, cls);
      var t := Settle(u, r, k, at);
      var ok := s.gate.mode.Off? || vc in s.gate.approved || cls in s.gate.approvedClasses;
      && (t.verdict.Pass? <==> s.verdict.Pass? && ok && s.checks !in cfg.timeouts && 0 <= offset && offset + len <= size)
      && (t.verdict.Fail? <==> ok && s.checks !in cfg.timeouts && !(0 <= offset && offset + len <= size))
      && t.checks == s.checks + (if ok then 1 else 0)
      && t.gate.mode == s.gate.mode && t.gate.approved == s.gate.approved && t.gate.approvedClasses == s.gate.approvedClasses
      && t.ptrs == s.ptrs && t.sizes == s.sizes && t.freed == s.freed
  {
    hide VcId;
  }

  /** What one list of checks does to the verdict. */
  ghost predicate Decided(cfg: Config, s: ScanState, at: Loc, cs: seq<Check>, t: ScanState) {
    && (t.verdict.Pass? <==> s.verdict.Pass? && forall i :: 0 <= i < |cs| ==> Proved(cfg, s, at, cs[i], s.checks + i))
    && (t.verdict.Fail? <==> exists i :: 0 <= i < |cs| && Refuted(cfg, s, at, cs[i], Ordinal(s, at, cs, i)))
    && (t.verdict.Pass? ==> t.checks == s.checks + |cs|)
  }

  lemma NoChecks(cfg: Config, s: ScanState, at: Loc)
    requires !s.verdict.Fail?
    ensures Decided(cfg, s, at, [], s)
  {
  }

  /** One check of a sized access through a live pointer. */
  lemma BoundsDecided(cfg: Config, s: ScanState, at: Loc, c: Check)
    requires !s.verdict.Fail? && c.id in s.sizes && c.len.Some? && Live(s, c)
    ensures var t := CheckBounds(cfg, s, at, c.kind, c.id, c.offset, c.len.value, c.cls);
      && Decided(cfg, s, at, [c], t)
      && t.checks == s.checks + (if Cleared(s, at, c) then 1 else 0)
      && t.gate.mode == s.gate.mode && t.gate.approved == s.gate.approved && t.gate.approvedClasses == s.gate.approvedClasses
      && t.ptrs == s.ptrs && t.sizes == s.sizes && t.freed == s.freed
  {
    hide CheckAccess;
    hide Settle;
    hide VcId;
    var vc := VcId(at, c.kind);
    CheckVerdict(cfg, s, s.sizes[c.id], c.offset, c.len.value, vc, c.cls, c.kind, at);
    var t := CheckBounds(cfg, s, at, c.kind, c.id, c.offset, c.len.value, c.cls);
    assert [c][0] == c;
    assert Ordinal(s, at, [c], 0) == s.checks;
    assert t.verdict.Fail? <==> Refuted(cfg, s, at, [c][0], s.checks);
    assert t.verdict.Pass? <==> s.verdict.Pass? && Proved(cfg, s, at, [c][0], s.checks);
  }

  lemma DeadDecided(cfg: Config, s: ScanState, at: Loc, c: Check, why: Reason)
    requires !s.verdict.Fail? && !Live(s, c)
    ensures Decided(cfg, s, at, [c], Failed(s, why))
  {
    assert [c][0] == c && Refuted(cfg, s, at, [c][0], Ordinal(s, at, [c], 0));
    assert !Proved(cfg, s, at, [c][0], s.checks + 0);
  }

  lemma {:induction false} BlockDecided(cfg: Config, s: ScanState, at: Loc, k: VcKind, op: Operand, n: U64)
    requires Inv(s) && !s.verdict.Fail?
    ensures var t, cs := ExecBlockAccess(cfg, s, at, k, op, n), BlockCheck(s, k, op, n);
      && Decided(cfg, s, at, cs, t)
      && (!t.verdict.Fail? ==>
            && t.checks == s.checks + (if cs != [] && Cleared(s, at, cs[0]) then 1 else 0)
            && t.gate.mode == s.gate.mode && t.gate.approved == s.gate.approved
            && t.gate.approvedClasses == s.gate.approvedClasses
            && t.ptrs == s.ptrs && t.sizes == s.sizes && t.freed == s.freed)
  {
    hide CheckBounds;
    hide Decided;
    hide VcId;
    hide SizedClass;
    hide KindText;
    hide Cleared;
    NoChecks(cfg, s, at);
    var p := PointerOf(s, op);
    if p.KmallocPtr? {
      var c := BlockCheck(s, k, op, n)[0];
      KnownPtr(s, op.name);
      if Live(s, c) {
        BoundsDecided(cfg, s, at, c);
      } else {
        DeadDecided(cfg, s, at, c, UseAfterFree(k, at.func));
      }
    }
  }

  /** Two lists of checks, one after the other. */
  lemma {:induction false} DecidedTwice(cfg: Config, s: ScanState, at: Loc, a: seq<Check>, b: seq<Check>, t: ScanState, u: ScanState)
    requires |a| <= 1 && |b| <= 1 && !s.verdict.Fail? && !t.verdict.Fail?
    requires Decided(cfg, s, at, a, t) && Decided(cfg, t, at, b, u)
    requires t.checks == s.checks + (if a != [] && Cleared(s, at, a[0]) then 1 else 0)
    requires t.gate.mode == s.gate.mode && t.gate.approved == s.gate.approved && t.gate.approvedClasses == s.gate.approvedClasses
    requires t.sizes == s.sizes && t.freed == s.freed
    ensures Decided(cfg, s, at, a + b, u)
  {
    hide VcId;
    var cs := a + b;
    if b != [] {
      var c := b[0];
      assert cs[|a|] == c;
      assert forall n :: Proved(cfg, s, at, c, n) <==> Proved(cfg, t, at, c, n);
      assert forall n :: Refuted(cfg, s, at, c, n) <==> Refuted(cfg, t, at, c, n);
      assert Ordinal(s, at, cs, |a|) == t.checks == Ordinal(t, at, b, 0);
      assert u.verdict.Fail? <==> Refuted(cfg, s, at, cs[|a|], t.checks);
    }
    if a != [] {
      assert cs[0] == a[0];
      assert Ordinal(s, at, cs, 0) == s.checks == Ordinal(s, at, a, 0);
      assert !Refuted(cfg, s, at, a[0], Ordinal(s, at, a, 0));
    }
    assert u.verdict.Pass? ==> t.verdict.Pass?;
  }

  // ------------------------------------------------------------ one instruction

  /** As `Decided`, for an instruction that also draws a remark unless `ok`. */
  ghost predicate DecidedIf(cfg: Config, s: ScanState, at: Loc, ok: bool, cs: seq<Check>, t: ScanState) {
    && (t.verdict.Pass? <==>
          s.verdict.Pass? && ok && forall i :: 0 <= i < |cs| ==> Proved(cfg, s, at, cs[i], s.checks + i))
    && (t.verdict.Fail? <==> exists i :: 0 <= i < |cs| && Refuted(cfg, s, at, cs[i], Ordinal(s, at, cs, i)))
    && (t.verdict.Pass? ==> t.checks == s.checks + |cs|)
  }

  lemma Quiet(cfg: Config, s: ScanState, at: Loc, t: ScanState)
    requires !s.verdict.Fail? && t.verdict == s.verdict && t.checks == s.checks
    ensures DecidedIf(cfg, s, at, true, [], t)
  {
  }

  lemma Remark(cfg: Config, s: ScanState, at: Loc, t: ScanState, why: Reason)
    requires !s.verdict.Fail? && t.verdict == MarkUnknown(s.verdict, why)
    ensures DecidedIf(cfg, s, at, false, [], t)
  {
  }

  lemma {:induction false} MemsetDecided(cfg: Config, s: ScanState, at: Loc, args: seq<Operand>)
    requires Inv(s) && !s.verdict.Fail?
    ensures DecidedIf(cfg, s, at, |args| >= 1 ==> |args| >= 3 && (args[0].Local? ==> IsInt(args, 2)),
                      if IsInt(args, 2) then BlockCheck(s, MemsetVc, args[0], IntValue(args, 2)) else [],
                      ExecMemset(cfg, s, at, args))
  {
    hide ExecBlockAccess;
    hide Proved;
    hide Refuted;
    hide SizedClass;
    hide KindText;
    hide Inv;
    if IsInt(args, 2) {
      BlockDecided(cfg, s, at, MemsetVc, args[0], IntValue(args, 2));
    }
  }

  lemma {:induction false} MemcpyDecided(cfg: Config, s: ScanState, at: Loc, args: seq<Operand>)
    requires Inv(s) && !s.verdict.Fail?
    ensures DecidedIf(cfg, s, at, |args| >= 1 ==> IsInt(args, 2),
                      if IsInt(args, 2)
                      then BlockCheck(s, MemcpyDestVc, args[0], IntValue(args, 2))
                           + BlockCheck(s, MemcpySourceVc, args[1], IntValue(args, 2))
                      else [],
                      ExecMemcpy(cfg, s, at, args))
  {
    hide ExecBlockAccess;
    hide Proved;
    hide Refuted;
    hide Inv;
    hide BlockCheck;
    if IsInt(args, 2) {
      var n := IntValue(args, 2);
      var a, b := BlockCheck(s, MemcpyDestVc, args[0], n), BlockCheck(s, MemcpySourceVc, args[1], n);
      BlockCheckShort(s, MemcpyDestVc, args[0], n);
      BlockCheckShort(s, MemcpySourceVc, args[1], n);
      BlockDecided(cfg, s, at, MemcpyDestVc, args[0], n);
      BlockAccessStep(cfg, s, at, MemcpyDestVc, args[0], n);
      var t := ExecBlockAccess(cfg, s, at, MemcpyDestVc, args[0], n);
      if t.verdict.Fail? {
        FirstRefutes(cfg, s, at, a, b);
      } else {
        BlockDecided(cfg, t, at, MemcpySourceVc, args[1], n);
        SameBlockCheck(s, t, MemcpySourceVc, args[1], n);
        DecidedTwice(cfg, s, at, a, b, t, ExecBlockAccess(cfg, t, at, MemcpySourceVc, args[1], n));
      }
    }
  }

  lemma BlockCheckShort(s: ScanState, k: VcKind, op: Operand, n: U64)
    ensures |BlockCheck(s, k, op, n)| <= 1
  {
  }

  lemma SameBlockCheck(s: ScanState, t: ScanState, k: VcKind, op: Operand, n: U64)
    requires t.ptrs == s.ptrs
    ensures BlockCheck(t, k, op, n) == BlockCheck(s, k, op, n)
  {
  }

  /** A refuted first check decides the whole list. */
  lemma FirstRefutes(cfg: Config, s: ScanState, at: Loc, a: seq<Check>, b: seq<Check>)
    requires |a| <= 1 && exists i :: 0 <= i < |a| && Refuted(cfg, s, at, a[i], Ordinal(s, at, a, i))
    ensures var cs := a + b;
      && (exists i :: 0 <= i < |cs| && Refuted(cfg, s, at, cs[i], Ordinal(s, at, cs, i)))
      && !forall i :: 0 <= i < |cs| ==> Proved(cfg, s, at, cs[i], s.checks + i)
  {
    hide VcId;
    var cs := a + b;
    assert cs[0] == a[0] && Ordinal(s, at, cs, 0) == Ordinal(s, at, a, 0) == s.checks;
    assert Refuted(cfg, s, at, cs[0], Ordinal(s, at, cs, 0));
    assert !Proved(cfg, s, at, cs[0], s.checks + 0);
  }

  lemma {:induction false} DmaMapDecided(cfg: Config, s: ScanState, at: Loc, args: seq<Operand>)
    requires Inv(s) && !s.verdict.Fail?
    ensures DecidedIf(cfg, s, at, IsInt(args, 2),
                      if IsInt(args, 2) && !PointerOf(s, args[1]).UnknownPtr?
                      then [Check(DmaMapVc, PointerOf(s, args[1]).id, PointerOf(s, args[1]).offset, Some(IntValue(args, 2)),
                                  false, SizedClass("dma_bounds", IntValue(args, 2)))]
                      else [],
                      ExecDmaMap(cfg, s, at, args))
  {
    hide CheckAccess;
    hide Settle;
    hide SizedClass;
    hide VcId;
    if IsInt(args, 2) && !PointerOf(s, args[1]).UnknownPtr? {
      var p, n := PointerOf(s, args[1]), IntValue(args, 2);
      var c := Check(DmaMapVc, p.id, p.offset, Some(n), false, SizedClass("dma_bounds", n));
      KnownPtr(s, args[1].name);
      hide Inv;
      CheckVerdict(cfg, s, s.sizes[p.id], p.offset, n, VcId(at, DmaMapVc), c.cls, DmaMapVc, at);
      SettleIgnoresCount(cfg, s, s.sizes[p.id], p.offset, n, VcId(at, DmaMapVc), c.cls, at);
      var t := ExecDmaMap(cfg, s, at, args);
      assert [c][0] == c && Ordinal(s, at, [c], 0) == s.checks;
      assert t.verdict.Fail? <==> Refuted(cfg, s, at, [c][0], s.checks);
      assert t.verdict.Pass? <==> s.verdict.Pass? && Proved(cfg, s, at, [c][0], s.checks);
    }
  }

  lemma SettleIgnoresCount(cfg: Config, s: ScanState, size: U64, offset: int, n: U64, vc: string, cls: string, at: Loc)
    ensures var (u, r) := CheckAccess(cfg, s, size, offset, n, vc, cls);
      var a, b := Settle(u, r, DmaMapVc, at), Settle(if r.Safe? then u else u.(dmaVcs := u.dmaVcs + 1), r, DmaMapVc, at);
      b.verdict == a.verdict && b.checks == a.checks
  {
    hide CheckAccess;
    hide VcId;
  }

  lemma {:induction false} SizedAccessDecided(cfg: Config, s: ScanState, at: Loc, k: VcKind, p: PtrVal, n: U64)
    requires !s.verdict.Fail? && !p.UnknownPtr? && p.id in s.sizes && p.id !in s.freed
    ensures DecidedIf(cfg, s, at, !cfg.irqRisk, TypedCheck(k, p, Some(n)), ExecSizedAccess(cfg, s, at, k, p.id, p.offset, n))
  {
    hide CheckBounds;
    hide ExecIrqRace;
    hide SizedClass;
    hide KindText;
    hide Proved;
    hide Refuted;
    var c := TypedCheck(k, p, Some(n))[0];
    BoundsDecided(cfg, s, at, c);
    var t := CheckBounds(cfg, s, at, k, p.id, p.offset, n, c.cls);
    if !t.verdict.Fail? && cfg.irqRisk {
      var race := if k.StoreVc? then IrqStoreVc else IrqLoadVc;
      IrqRaceReports(t, at, race, p.id);
      RaceDoesNotFail(t, at, race, p.id);
    }
  }

  lemma RaceDoesNotFail(s: ScanState, at: Loc, k: VcKind, id: nat)
    requires !s.verdict.Fail?
    ensures !ExecIrqRace(s, at, k, id).verdict.Fail?
  {
    hide VcId;
    hide IrqClass;
    hide Ask;
    hide Approves;
  }

  lemma UnsizedDecided(cfg: Config, s: ScanState, at: Loc, k: VcKind, p: PtrVal, why: Reason)
    requires !s.verdict.Fail? && !p.UnknownPtr? && p.id !in s.freed
    ensures DecidedIf(cfg, s, at, !cfg.irqRisk, TypedCheck(k, p, None), Marked(s, why))
  {
    var cs := TypedCheck(k, p, None);
    assert !Proved(cfg, s, at, cs[0], s.checks + 0);
  }

  lemma {:induction false} TypedDecided(cfg: Config, s: ScanState, at: Loc, k: VcKind, p: PtrVal, n: Option<U64>)
    requires !s.verdict.Fail? && !p.UnknownPtr? && p.id in s.sizes && p.id !in s.freed
    ensures DecidedIf(cfg, s, at, !cfg.irqRisk, TypedCheck(k, p, n), ExecTypedAccess(cfg, s, at, k, p.id, p.offset, n))
  {
    hide DecidedIf;
    hide TypedCheck;
    hide ExecSizedAccess;
    hide Marked;
    if n.Some? {
      SizedAccessDecided(cfg, s, at, k, p, n.value);
    } else {
      UnsizedDecided(cfg, s, at, k, p, if k.StoreVc? then StoreUnsized else LoadUnsized);
    }
  }

  lemma DeadAccessDecided(cfg: Config, s: ScanState, at: Loc, k: VcKind, p: PtrVal, n: Option<U64>, why: Reason)
    requires !s.verdict.Fail? && !p.UnknownPtr? && p.id in s.freed
    ensures DecidedIf(cfg, s, at, !cfg.irqRisk, TypedCheck(k, p, n), Failed(s, why))
  {
    hide SizedClass;
    hide KindText;
    hide Proved;
    hide Refuted;
    DeadDecided(cfg, s, at, TypedCheck(k, p, n)[0], why);
  }

  lemma TypedCheckEmpty(k: VcKind, p: PtrVal, n: Option<U64>)
    ensures TypedCheck(k, p, n) == [] <==> p.UnknownPtr?
  {
  }

  lemma {:induction false} AccessDecided(cfg: Config, s: ScanState, at: Loc, k: VcKind, p: PtrVal, ty: Type)
    requires Inv(s) && !s.verdict.Fail? && (k.StoreVc? || k.LoadVc?) && PtrOk(s.counter, s.dmaIds, p)
    ensures var cs := TypedCheck(k, p, SizeOf(ty, cfg.defs));
      DecidedIf(cfg, s, at, cfg.irqRisk ==> cs == [], cs, ExecAccess(cfg, s, at, k, p, ty))
  {
    assert !p.UnknownPtr? ==> p.id in s.sizes;
    hide Inv;
    hide SizeOf;
    hide ExecTypedAccess;
    hide TypedCheck;
    var n := SizeOf(ty, cfg.defs);
    TypedCheckEmpty(k, p, n);
    if p.UnknownPtr? {
      Quiet(cfg, s, at, s);
    } else if p.id in s.freed {
      DeadAccessDecided(cfg, s, at, k, p, n, UseAfterFree(k, at.func));
    } else {
      TypedDecided(cfg, s, at, k, p, n);
    }
  }

  // ------------------------------------------------------------ calls

  /** What an instruction does to the verdict. */
  ghost predicate StepDecided(cfg: Config, s: ScanState, at: Loc, instr: Instr, t: ScanState) {
    && (t.verdict.Pass? <==> s.verdict.Pass? && Clean(cfg, s, at, instr))
    && (t.verdict.Fail? <==> Faulty(cfg, s, at, instr))
    && (t.verdict.Pass? ==> t.checks == s.checks + |Checks(cfg, s, instr)|)
  }

  lemma {:induction false} AllocatorDecided(cfg: Config, s: ScanState, at: Loc, instr: Instr)
    requires instr.Call? && !s.verdict.Fail?
    requires IsCallTo(instr, "kmalloc") || IsCallTo(instr, "kzalloc") || IsCallTo(instr, "kcalloc")
    ensures StepDecided(cfg, s, at, instr, ExecCall(cfg, s, at, instr.callee, instr.args, instr.result))
  {
    RoutineByName(instr);
    OneName(instr);
    hide RoutineNamed;
    hide Allocate;
    hide IsSafeAsm;
    AllocateQuiet(s, instr.result);
    if IsInt(instr.args, 0) && IsInt(instr.args, 1) {
      assert CheckedMul(IntValue(instr.args, 0), IntValue(instr.args, 1)).Some?
        <==> IntValue(instr.args, 0) * IntValue(instr.args, 1) < 0x1_0000_0000_0000_0000;
    }
    hide CheckedMul;
  }

  lemma AllocateQuiet(s: ScanState, dest: Option<Name>)
    ensures forall size: U64, dma: bool ::
      Allocate(s, size, dest, dma).verdict == s.verdict && Allocate(s, size, dest, dma).checks == s.checks
  {
  }

  /** A call has at most one of these names. */
  lemma OneName(instr: Instr)
    requires instr.Call?
    ensures forall a, b :: IsCallTo(instr, a) && IsCallTo(instr, b) ==> a == b
  {
  }

  /** From the accesses and the remark of an instruction to its verdict. */
  lemma FromDecidedIf(cfg: Config, s: ScanState, at: Loc, instr: Instr, ok: bool, t: ScanState)
    requires DecidedIf(cfg, s, at, ok, Checks(cfg, s, instr), t)
    requires ok <==> TextOk(cfg, instr) && Followed(cfg, s, instr) && (cfg.irqRisk && IsAccess(instr) ==> Checks(cfg, s, instr) == [])
    requires !Overflows(instr) && !DoubleFrees(s, instr) && !(instr.Call? && instr.callee.Asm? && cfg.asmPolicy.Trap?)
    ensures StepDecided(cfg, s, at, instr, t)
  {
    hide Checks;
    hide TextOk;
    hide Followed;
    hide Proved;
    hide Refuted;
    hide Overflows;
    hide DoubleFrees;
  }

  lemma {:induction false} KfreeDecided(cfg: Config, s: ScanState, at: Loc, instr: Instr)
    requires IsCallTo(instr, "kfree") && !s.verdict.Fail?
    ensures StepDecided(cfg, s, at, instr, ExecCall(cfg, s, at, instr.callee, instr.args, instr.result))
  {
    RoutineByName(instr);
    OneName(instr);
    hide RoutineNamed;
    hide IsSafeAsm;
  }

  lemma {:induction false} BlockCallDecided(cfg: Config, s: ScanState, at: Loc, instr: Instr)
    requires Inv(s) && !s.verdict.Fail?
    requires IsCallTo(instr, "memset") || IsCallTo(instr, "memcpy") || IsCallTo(instr, "__memcpy")
    ensures StepDecided(cfg, s, at, instr, ExecCall(cfg, s, at, instr.callee, instr.args, instr.result))
  {
    RoutineByName(instr);
    OneName(instr);
    hide RoutineNamed;
    hide IsSafeAsm;
    hide ExecMemset;
    hide ExecMemcpy;
    hide BlockCheck;
    hide DecidedIf;
    hide StepDecided;
    hide Inv;
    var args, t := instr.args, ExecCall(cfg, s, at, instr.callee, instr.args, instr.result);
    if IsCallTo(instr, "memset") {
      MemsetDecided(cfg, s, at, args);
      FromDecidedIf(cfg, s, at, instr, |args| >= 1 ==> |args| >= 3 && (args[0].Local? ==> IsInt(args, 2)), t);
    } else {
      MemcpyDecided(cfg, s, at, args);
      FromDecidedIf(cfg, s, at, instr, |args| >= 1 ==> IsInt(args, 2), t);
    }
  }

  lemma {:induction false} DmaCallDecided(cfg: Config, s: ScanState, at: Loc, instr: Instr)
    requires Inv(s) && !s.verdict.Fail?
    requires IsCallTo(instr, "dma_alloc_coherent") || IsCallTo(instr, "dma_map_single") || IsCallTo(instr, "iommu_map")
    ensures StepDecided(cfg, s, at, instr, ExecCall(cfg, s, at, instr.callee, instr.args, instr.result))
  {
    RoutineByName(instr);
    OneName(instr);
    hide RoutineNamed;
    hide IsSafeAsm;
    hide ExecDmaAlloc;
    hide ExecDmaMap;
    hide DecidedIf;
    hide StepDecided;
    hide SizedClass;
    hide Inv;
    var args, t := instr.args, ExecCall(cfg, s, at, instr.callee, instr.args, instr.result);
    if IsCallTo(instr, "dma_map_single") && !cfg.dma.Ignore? {
      DmaMapDecided(cfg, s, at, args);
      FromDecidedIf(cfg, s, at, instr, IsInt(args, 2), t);
    } else if IsCallTo(instr, "dma_alloc_coherent") && !cfg.dma.Ignore? {
      DmaAllocDecided(cfg, s, at, args, instr.result);
      FromDecidedIf(cfg, s, at, instr, IsInt(args, 1), t);
    } else {
      Quiet(cfg, s, at, t);
      FromDecidedIf(cfg, s, at, instr, true, t);
    }
  }

  lemma DmaAllocDecided(cfg: Config, s: ScanState, at: Loc, args: seq<Operand>, dest: Option<Name>)
    requires !s.verdict.Fail?
    ensures DecidedIf(cfg, s, at, IsInt(args, 1), [], ExecDmaAlloc(s, at, args, dest))
  {
    hide VcId;
    hide Ask;
    hide SizedClass;
    hide KindText;
    hide Allocate;
    AllocateQuiet(s, dest);
  }

  lemma {:induction false} AsmDecided(cfg: Config, s: ScanState, at: Loc, instr: Instr)
    requires instr.Call? && instr.callee.Asm? && !s.verdict.Fail?
    ensures StepDecided(cfg, s, at, instr, ExecCall(cfg, s, at, instr.callee, instr.args, instr.result))
  {
    hide IsSafeAsm;
    hide VcId;
    hide Ask;
    hide Approves;
  }

  lemma {:induction false} OtherCallDecided(cfg: Config, s: ScanState, at: Loc, instr: Instr)
    requires instr.Call? && !instr.callee.Asm? && !s.verdict.Fail?
    requires CalleeName(instr.callee).None? || RoutineNamed(CalleeName(instr.callee).value).OtherRoutine?
    ensures StepDecided(cfg, s, at, instr, ExecCall(cfg, s, at, instr.callee, instr.args, instr.result))
  {
    if CalleeName(instr.callee).Some? {
      RoutineByName(instr);
    }
    hide RoutineNamed;
    hide IsSafeAsm;
  }

  lemma {:induction false} CallDecided(cfg: Config, s: ScanState, at: Loc, instr: Instr)
    requires Inv(s) && instr.Call? && !s.verdict.Fail?
    ensures StepDecided(cfg, s, at, instr, ExecCall(cfg, s, at, instr.callee, instr.args, instr.result))
  {
    hide StepDecided;
    hide ExecCall;
    hide Inv;
    if instr.callee.Asm? {
      AsmDecided(cfg, s, at, instr);
    } else if CalleeName(instr.callee).None? {
      OtherCallDecided(cfg, s, at, instr);
    } else {
      RoutineByName(instr);
      hide IsCallTo;
      match RoutineNamed(CalleeName(instr.callee).value)
      case Kmalloc => AllocatorDecided(cfg, s, at, instr);
      case Kcalloc => AllocatorDecided(cfg, s, at, instr);
      case Kfree => KfreeDecided(cfg, s, at, instr);
      case Memset => BlockCallDecided(cfg, s, at, instr);
      case Memcpy => BlockCallDecided(cfg, s, at, instr);
      case OtherRoutine => OtherCallDecided(cfg, s, at, instr);
      case _ => DmaCallDecided(cfg, s, at, instr);
    }
  }

  // ------------------------------------------------------------ arithmetic and accesses

  lemma {:induction false} DeltaKnown(indices: seq<Operand>, i: nat, ty: Type, defs: Defs)
    requires Acyclic(defs) && i <= |indices|
    ensures Delta(indices, i, ty, defs).Some? <==>
      && (forall k :: i <= k < |indices| ==> IsConst(indices[k]))
      && (i == 0 && indices != [] ==> ty.PointerType? || SizeOf(ty, defs).Some?)
    decreases |indices| - i
  {
    hide SizeOf;
    if i < |indices| {
      DeltaKnown(indices, i + 1, ty, defs);
    }
  }

  lemma {:induction false} GepDecided(cfg: Config, s: ScanState, at: Loc, instr: Instr)
    requires instr.GetElementPtr? && !s.verdict.Fail?
    ensures StepDecided(cfg, s, at, instr, ExecGep(cfg, s, instr.base, instr.indices, instr.dest))
  {
    hide Delta;
    hide SizeOf;
    hide DecidedIf;
    hide StepDecided;
    DeltaKnown(instr.indices, 0, TypeOf(instr.base), cfg.defs);
    var t, ok := ExecGep(cfg, s, instr.base, instr.indices, instr.dest), TextOk(cfg, instr) && Followed(cfg, s, instr);
    if ok {
      Quiet(cfg, s, at, t);
    } else {
      Remark(cfg, s, at, t, if !instr.base.Local? then GepBaseNotLocal else GepUnsupported(BaseOf(s, instr.base).DmaPtr?));
    }
    FromDecidedIf(cfg, s, at, instr, ok, t);
  }

  lemma {:induction false} ArithmeticDecided(cfg: Config, s: ScanState, at: Loc, instr: Instr)
    requires !s.verdict.Fail? && (instr.Add? || instr.Sub?)
    ensures StepDecided(cfg, s, at, instr, Exec(cfg, at, instr, s))
  {
  }

  lemma {:induction false} CastDecided(cfg: Config, s: ScanState, at: Loc, instr: Instr)
    requires !s.verdict.Fail? && (instr.PtrToInt? || instr.IntToPtr? || instr.BitCast? || instr.Alloca? || instr.OtherInstr?)
    ensures StepDecided(cfg, s, at, instr, Exec(cfg, at, instr, s))
  {
  }

  lemma {:induction false} StoreDecided(cfg: Config, s: ScanState, at: Loc, instr: Instr)
    requires Inv(s) && !s.verdict.Fail? && instr.Store?
    ensures StepDecided(cfg, s, at, instr, Exec(cfg, at, instr, s))
  {
    hide ExecAccess;
    hide SizeOf;
    hide DecidedIf;
    hide StepDecided;
    hide TypedCheck;
    var address, value := instr.address, instr.value;
    var p, t := PointerOf(s, address), Exec(cfg, at, instr, s);
    var cs := TypedCheck(StoreVc, p, SizeOf(TypeOf(value), cfg.defs));
    TypedCheckEmpty(StoreVc, p, SizeOf(TypeOf(value), cfg.defs));
    if address.Local? && address.name in s.ptrs {
      var u := RecordSpill(s, address.name, value);
      assert Inv(u);
      AccessDecided(cfg, u, at, StoreVc, p, TypeOf(value));
      SameDecision(cfg, s, u, at, cfg.irqRisk ==> cs == [], cs, t);
    } else {
      Quiet(cfg, s, at, t);
    }
    FromDecidedIf(cfg, s, at, instr, cfg.irqRisk ==> cs == [], t);
  }

  /** Spilling and recovering change nothing a check looks at. */
  lemma SameDecision(cfg: Config, s: ScanState, u: ScanState, at: Loc, ok: bool, cs: seq<Check>, t: ScanState)
    requires DecidedIf(cfg, u, at, ok, cs, t)
    requires u.sizes == s.sizes && u.freed == s.freed && u.gate == s.gate && u.checks == s.checks && u.verdict == s.verdict
    ensures DecidedIf(cfg, s, at, ok, cs, t)
  {
    hide VcId;
    assert forall i :: 0 <= i < |cs| ==> (Proved(cfg, s, at, cs[i], s.checks + i) <==> Proved(cfg, u, at, cs[i], u.checks + i));
    assert forall i :: 0 <= i < |cs| ==> Ordinal(s, at, cs, i) == Ordinal(u, at, cs, i);
    assert forall i, n :: 0 <= i < |cs| ==> (Refuted(cfg, s, at, cs[i], n) <==> Refuted(cfg, u, at, cs[i], n));
  }

  lemma {:induction false} LoadDecided(cfg: Config, s: ScanState, at: Loc, instr: Instr)
    requires Inv(s) && !s.verdict.Fail? && instr.Load?
    ensures StepDecided(cfg, s, at, instr, Exec(cfg, at, instr, s))
  {
    hide ExecAccess;
    hide SizeOf;
    hide DecidedIf;
    hide StepDecided;
    hide TypedCheck;
    var address, ty := instr.address, instr.loadedTy;
    var p, t := LoadPointer(s, address, instr.dest), Exec(cfg, at, instr, s);
    var cs := TypedCheck(LoadVc, p, SizeOf(ty, cfg.defs));
    TypedCheckEmpty(LoadVc, p, SizeOf(ty, cfg.defs));
    if address.Local? {
      var u := RecoverSpill(s, address.name, instr.dest);
      assert Inv(u);
      if address.name in u.ptrs {
        assert p == u.ptrs[address.name];
        AccessDecided(cfg, u, at, LoadVc, p, ty);
        SameDecision(cfg, s, u, at, cfg.irqRisk ==> cs == [], cs, t);
      } else {
        Quiet(cfg, s, at, t);
      }
    } else {
      Quiet(cfg, s, at, t);
    }
    FromDecidedIf(cfg, s, at, instr, cfg.irqRisk ==> cs == [], t);
  }

  /** Every instruction, in every reachable state: it passes exactly if clean and fails exactly if faulty. */
  lemma {:induction false} ExecDecided(cfg: Config, s: ScanState, at: Loc, instr: Instr)
    requires Inv(s) && !s.verdict.Fail?
    ensures StepDecided(cfg, s, at, instr, Exec(cfg, at, instr, s))
  {
    hide StepDecided;
    hide Inv;
    hide ExecCall;
    hide ExecGep;
    match instr
    case Call(_, _, _) => CallDecided(cfg, s, at, instr);
    case GetElementPtr(_, _, _) => GepDecided(cfg, s, at, instr);
    case Add(_, _, _) => ArithmeticDecided(cfg, s, at, instr);
    case Sub(_, _, _) => ArithmeticDecided(cfg, s, at, instr);
    case Store(_, _) => StoreDecided(cfg, s, at, instr);
    case Load(_, _, _) => LoadDecided(cfg, s, at, instr);
    case _ => CastDecided(cfg, s, at, instr);
  }

  // ------------------------------------------------------------ whole runs

  /** The state in which the scan meets instruction `n`. */
  function StateAt(cfg: Config, sites: seq<Site>, n: nat, s: ScanState): ScanState
    requires n <= |sites|
  {
    RunSites(cfg, sites[..n], s)
  }

  lemma {:induction false} StateAtTail(cfg: Config, sites: seq<Site>, n: nat, s: ScanState)
    requires sites != [] && n < |sites| && !s.verdict.Fail?
    ensures StateAt(cfg, sites, n + 1, s) == StateAt(cfg, sites[1..], n, Exec(cfg, sites[0].at, sites[0].instr, s))
  {
    hide Exec;
    assert sites[..n + 1][1..] == sites[1..][..n] && sites[..n + 1][0] == sites[0];
  }

  predicate CleanAt(cfg: Config, sites: seq<Site>, n: nat, s: ScanState)
    requires n < |sites|
  {
    Clean(cfg, StateAt(cfg, sites, n, s), sites[n].at, sites[n].instr)
  }

  predicate FaultyAt(cfg: Config, sites: seq<Site>, n: nat, s: ScanState)
    requires n < |sites|
  {
    !StateAt(cfg, sites, n, s).verdict.Fail? && Faulty(cfg, StateAt(cfg, sites, n, s), sites[n].at, sites[n].instr)
  }

  lemma {:induction false} StateAtZero(cfg: Config, sites: seq<Site>, s: ScanState)
    ensures StateAt(cfg, sites, 0, s) == s
  {
    assert sites[..0] == [];
  }

  /** The scan passes a stream exactly when every instruction is clean where the scan meets it. */
  lemma {:induction false} PassIff(cfg: Config, sites: seq<Site>, s: ScanState)
    requires Inv(s) && s.verdict.Pass?
    ensures RunSites(cfg, sites, s).verdict.Pass? <==> forall n :: 0 <= n < |sites| ==> CleanAt(cfg, sites, n, s)
    decreases |sites|
  {
    hide Exec;
    hide Clean;
    hide Faulty;
    hide Inv;
    hide StateAt;
    if sites != [] {
      var x, rest := sites[0], sites[1..];
      var t := Exec(cfg, x.at, x.instr, s);
      ExecStep(cfg, x.at, x.instr, s);
      ExecDecided(cfg, s, x.at, x.instr);
      StateAtZero(cfg, sites, s);
      assert CleanAt(cfg, sites, 0, s) <==> t.verdict.Pass?;
      if t.verdict.Pass? {
        PassIff(cfg, rest, t);
        forall n | 0 <= n < |rest| ensures CleanAt(cfg, rest, n, t) <==> CleanAt(cfg, sites, n + 1, s) {
          StateAtTail(cfg, sites, n, s);
          assert rest[n] == sites[n + 1];
        }
        assert forall n :: 1 <= n < |sites| ==> (CleanAt(cfg, sites, n, s) <==> CleanAt(cfg, rest, n - 1, t));
      } else {
        RunKeeps(cfg, rest, t);
      }
    }
  }

  /** It fails exactly when an instruction it reaches is faulty there. */
  lemma {:induction false} FailIff(cfg: Config, sites: seq<Site>, s: ScanState)
    requires Inv(s) && !s.verdict.Fail?
    ensures RunSites(cfg, sites, s).verdict.Fail? <==> exists n :: 0 <= n < |sites| && FaultyAt(cfg, sites, n, s)
    decreases |sites|
  {
    hide Exec;
    hide Clean;
    hide Faulty;
    hide Inv;
    hide StateAt;
    if sites != [] {
      var x, rest := sites[0], sites[1..];
      var t := Exec(cfg, x.at, x.instr, s);
      ExecStep(cfg, x.at, x.instr, s);
      ExecDecided(cfg, s, x.at, x.instr);
      StateAtZero(cfg, sites, s);
      assert FaultyAt(cfg, sites, 0, s) <==> t.verdict.Fail?;
      if !t.verdict.Fail? {
        FailIff(cfg, rest, t);
        forall n | 0 <= n < |rest| ensures FaultyAt(cfg, rest, n, t) <==> FaultyAt(cfg, sites, n + 1, s) {
          StateAtTail(cfg, sites, n, s);
          assert rest[n] == sites[n + 1];
        }
        assert forall n :: 1 <= n < |sites| ==> (FaultyAt(cfg, sites, n, s) <==> FaultyAt(cfg, rest, n - 1, t));
      }
    }
  }

  /** A passing scan has made as many solver calls as there were accesses to check, and none gave up. */
  lemma {:induction false} PassHasNoTimeout(cfg: Config, sites: seq<Site>, s: ScanState)
    requires Inv(s) && s.verdict.Pass? && RunSites(cfg, sites, s).verdict.Pass?
    requires forall k :: 0 <= k < s.checks ==> k !in cfg.timeouts
    ensures forall k :: 0 <= k < RunSites(cfg, sites, s).checks ==> k !in cfg.timeouts
    decreases |sites|
  {
    hide Exec;
    hide Inv;
    hide Checks;
    if sites != [] {
      var x := sites[0];
      var t := Exec(cfg, x.at, x.instr, s);
      ExecStep(cfg, x.at, x.instr, s);
      ExecDecided(cfg, s, x.at, x.instr);
      RunKeeps(cfg, sites[1..], t);
      var cs := Checks(cfg, s, x.instr);
      forall k | 0 <= k < t.checks ensures k !in cfg.timeouts {
        if k >= s.checks {
          assert Proved(cfg, s, x.at, cs[k - s.checks], s.checks + (k - s.checks));
        }
      }
      PassHasNoTimeout(cfg, sites[1..], t);
    }
  }

  /**
   What a pass means, for every module, policy, gate and solver: every instruction is written the way
   the scan can follow, no solver call gave up, every access the scan checks is in bounds of a block
   (a live one, for everything but `dma_map_single`), nothing is freed twice, and nothing was allocated
   after the last `iommu_map` where that is required.
   */
  lemma {:induction false} PassMeans(cfg: Config, fs: seq<Function>, gate: GateState, n: nat)
    requires n < |ModuleSites(fs, 0)|
    requires IsOutcome(cfg, RunModule(cfg, fs, 0, InitialState(gate)), Pass)
    ensures var sites := ModuleSites(fs, 0);
      var s, instr := StateAt(cfg, sites, n, InitialState(gate)), sites[n].instr;
      var cs := Checks(cfg, s, instr);
      && TextOk(cfg, instr) && Followed(cfg, s, instr) && !DoubleFrees(s, instr)
      && (forall i :: 0 <= i < |cs| ==> Live(s, cs[i]) && InBounds(s, cs[i]) && Cleared(s, sites[n].at, cs[i]))
      && (cfg.irqRisk && IsAccess(instr) ==> cs == [])
    ensures var t := RunModule(cfg, fs, 0, InitialState(gate));
      forall k :: 0 <= k < t.checks ==> k !in cfg.timeouts
  {
    hide Exec;
    hide Inv;
    hide TextOk;
    hide Followed;
    hide Checks;
    var sites, s0 := ModuleSites(fs, 0), InitialState(gate);
    ModuleIsFlat(cfg, fs, 0, s0);
    InitialInv(gate);
    PassIff(cfg, sites, s0);
    PassHasNoTimeout(cfg, sites, s0);
    assert CleanAt(cfg, sites, n, s0);
  }

  /**
   The verdict of every module: it passes exactly when every instruction is clean where the scan meets
   it, it fails exactly when one the scan reaches is faulty, require-iommu adds the DMA allocations with
   no `iommu_map` behind them, and everything else is unknown.
   */
  lemma {:induction false} VerdictIff(cfg: Config, fs: seq<Function>, gate: GateState, v: Verdict)
    requires IsOutcome(cfg, RunModule(cfg, fs, 0, InitialState(gate)), v)
    ensures var sites, s := ModuleSites(fs, 0), InitialState(gate);
      var late := cfg.dma.RequireIommu? && SomeLateAlloc(sites);
      && (v.Pass? <==> !late && forall n :: 0 <= n < |sites| ==> CleanAt(cfg, sites, n, s))
      && (v.Fail? <==> late || exists n :: 0 <= n < |sites| && FaultyAt(cfg, sites, n, s))
  {
    hide Exec;
    hide Inv;
    hide CleanAt;
    hide FaultyAt;
    hide SomeLateAlloc;
    var sites, s0 := ModuleSites(fs, 0), InitialState(gate);
    ModuleIsFlat(cfg, fs, 0, s0);
    InitialInv(gate);
    PassIff(cfg, sites, s0);
    FailIff(cfg, sites, s0);
    if cfg.dma.RequireIommu? {
      if RunSites(cfg, sites, s0).verdict.Fail? {
        assert v.Fail?;
      } else {
        RequireIommuVerdict(cfg, fs, gate, v);
      }
    }
  }
}
