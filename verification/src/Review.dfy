/**
 The review workflow: scan, approve what was blocked, scan again. What a scan asks does not depend
 on what was approved, up to a failure that an approval brings to light.
 */
module Review {
  import opened Common
  import opened Types
  import opened TypeSize
  import opened Ir
  import opened Gep
  import opened Gate
  import opened Scan
  import opened GateHistory

  // ------------------------------------------------------------ what does not depend on the gate

  /** Two scans that know the same of the program. */
  predicate Agree(s: ScanState, t: ScanState) {
    && s.ptrs == t.ptrs && s.ints == t.ints && s.sizes == t.sizes && s.freed == t.freed && s.counter == t.counter
    && s.slots == t.slots && s.slotNames == t.slotNames && s.dmaIds == t.dmaIds && s.mapped == t.mapped
  }

  predicate Going(s: ScanState, t: ScanState) { Agree(s, t) && !s.verdict.Fail? && !t.verdict.Fail? }

  /** The same operation took `s` to `a` and `t` to `b`, without a question. */
  predicate Quiet(s: ScanState, t: ScanState, a: ScanState, b: ScanState) {
    Agree(a, b) && a.gate == s.gate && b.gate == t.gate && a.verdict.Fail? == b.verdict.Fail?
  }

  lemma QuietMark(s: ScanState, t: ScanState, why: Reason)
    requires Going(s, t)
    ensures Quiet(s, t, Marked(s, why), Marked(t, why))
  {
  }

  lemma QuietFail(s: ScanState, t: ScanState, why: Reason)
    requires Going(s, t)
    ensures Quiet(s, t, Failed(s, why), Failed(t, why))
  {
  }

  lemma QuietSet(s: ScanState, t: ScanState, dest: Name, p: PtrVal, v: IntVal)
    requires Going(s, t)
    ensures Quiet(s, t, SetPtr(s, dest, p), SetPtr(t, dest, p)) && Going(SetPtr(s, dest, p), SetPtr(t, dest, p))
    ensures Quiet(s, t, SetInt(s, dest, v), SetInt(t, dest, v)) && Going(SetInt(s, dest, v), SetInt(t, dest, v))
  {
  }

  lemma QuietMarkedSet(s: ScanState, t: ScanState, dest: Name, why: Reason)
    requires Going(s, t)
    ensures Quiet(s, t, Marked(SetPtr(s, dest, UnknownPtr), why), Marked(SetPtr(t, dest, UnknownPtr), why))
    ensures Quiet(s, t, Marked(SetInt(s, dest, UnknownInt), why), Marked(SetInt(t, dest, UnknownInt), why))
  {
    hide Going;
    hide Agree;
    hide SetPtr;
    hide SetInt;
    hide Marked;
    QuietSet(s, t, dest, UnknownPtr, UnknownInt);
    QuietMark(SetPtr(s, dest, UnknownPtr), SetPtr(t, dest, UnknownPtr), why);
    QuietMark(SetInt(s, dest, UnknownInt), SetInt(t, dest, UnknownInt), why);
  }

  lemma QuietAllocate(s: ScanState, t: ScanState, size: U64, dest: Option<Name>, dma: bool)
    requires Going(s, t)
    ensures Quiet(s, t, Allocate(s, size, dest, dma), Allocate(t, size, dest, dma))
  {
  }

  lemma QuietKmalloc(s: ScanState, t: ScanState, args: seq<Operand>, dest: Option<Name>)
    requires Going(s, t)
    ensures Quiet(s, t, ExecKmalloc(s, args, dest), ExecKmalloc(t, args, dest))
  {
    hide Going;
    hide Quiet;
    hide Marked;
    hide Allocate;
    QuietMark(s, t, KmallocNoSize);
    QuietMark(s, t, KmallocSizeNotConst);
    forall size ensures Quiet(s, t, Allocate(s, size, dest, false), Allocate(t, size, dest, false)) {
      QuietAllocate(s, t, size, dest, false);
    }
  }

  lemma QuietKcalloc(s: ScanState, t: ScanState, args: seq<Operand>, dest: Option<Name>)
    requires Going(s, t)
    ensures Quiet(s, t, ExecKcalloc(s, args, dest), ExecKcalloc(t, args, dest))
  {
    hide CheckedMul;
    hide Going;
    hide Quiet;
    hide Marked;
    hide Failed;
    hide Allocate;
    QuietMark(s, t, KcallocNoCount);
    QuietMark(s, t, KcallocNoSize);
    QuietMark(s, t, KcallocNotConst);
    QuietFail(s, t, KcallocOverflow);
    forall size ensures Quiet(s, t, Allocate(s, size, dest, false), Allocate(t, size, dest, false)) {
      QuietAllocate(s, t, size, dest, false);
    }
  }

  lemma QuietFree(s: ScanState, t: ScanState, id: nat)
    requires Going(s, t)
    ensures Quiet(s, t, s.(freed := s.freed + {id}), t.(freed := t.freed + {id}))
  {
  }

  lemma QuietKfree(s: ScanState, t: ScanState, at: Loc, args: seq<Operand>)
    requires Going(s, t)
    ensures Quiet(s, t, ExecKfree(s, at, args), ExecKfree(t, at, args))
  {
    hide Quiet;
    hide Marked;
    hide Failed;
    QuietMark(s, t, KfreeNoPointer);
    QuietMark(s, t, KfreeNotLocal);
    QuietFail(s, t, DoubleFree(at.func));
    QuietNothing(s, t);
    var op := Arg(args, 0);
    if op.Some? && op.value.Local? && op.value.name in s.ptrs && s.ptrs[op.value.name].KmallocPtr? {
      QuietFree(s, t, s.ptrs[op.value.name].id);
    }
  }

  lemma QuietNothing(s: ScanState, t: ScanState)
    requires Going(s, t)
    ensures Quiet(s, t, s, t)
  {
  }

  lemma QuietGep(cfg: Config, s: ScanState, t: ScanState, base: Operand, indices: seq<Operand>, dest: Name)
    requires Going(s, t)
    ensures Quiet(s, t, ExecGep(cfg, s, base, indices, dest), ExecGep(cfg, t, base, indices, dest))
  {
    hide GepOffset;
    hide Quiet;
    hide SetPtr;
    hide Marked;
    QuietMarkedSet(s, t, dest, GepBaseNotLocal);
    QuietMarkedSet(s, t, dest, GepUnsupported(false));
    QuietMarkedSet(s, t, dest, GepUnsupported(true));
    forall p ensures Quiet(s, t, SetPtr(s, dest, p), SetPtr(t, dest, p)) {
      QuietSet(s, t, dest, p, UnknownInt);
    }
  }

  lemma QuietCasts(s: ScanState, t: ScanState, op: Operand, dest: Name)
    requires Going(s, t)
    ensures Quiet(s, t, ExecPtrToInt(s, op, dest), ExecPtrToInt(t, op, dest))
    ensures Quiet(s, t, ExecIntToPtr(s, op, dest), ExecIntToPtr(t, op, dest))
    ensures Quiet(s, t, ExecBitCast(s, op, dest), ExecBitCast(t, op, dest))
  {
    hide Quiet;
    hide SetPtr;
    hide SetInt;
    hide Marked;
    QuietMarkedSet(s, t, dest, PtrToIntNotLocal);
    QuietMarkedSet(s, t, dest, IntToPtrNotLocal);
    QuietMarkedSet(s, t, dest, BitCastNotLocal);
    forall p ensures Quiet(s, t, SetPtr(s, dest, p), SetPtr(t, dest, p)) {
      QuietSet(s, t, dest, p, UnknownInt);
    }
    forall v ensures Quiet(s, t, SetInt(s, dest, v), SetInt(t, dest, v)) {
      QuietSet(s, t, dest, UnknownPtr, v);
    }
  }

  lemma QuietAdd(s: ScanState, t: ScanState, op0: Operand, op1: Operand, dest: Name)
    requires Going(s, t)
    ensures Quiet(s, t, ExecAdd(s, op0, op1, dest), ExecAdd(t, op0, op1, dest))
  {
    hide ConstU64;
    hide Quiet;
    hide SetInt;
    hide Marked;
    QuietNothing(s, t);
    QuietMarkedSet(s, t, dest, AddUnsupported);
    forall v ensures Quiet(s, t, SetInt(s, dest, v), SetInt(t, dest, v)) {
      QuietSet(s, t, dest, UnknownPtr, v);
    }
  }

  lemma QuietThenMark(s: ScanState, t: ScanState, a: ScanState, b: ScanState, why: Reason)
    requires Quiet(s, t, a, b) && !a.verdict.Fail?
    ensures Quiet(s, t, Marked(a, why), Marked(b, why))
  {
  }

  lemma QuietSub(s: ScanState, t: ScanState, op0: Operand, op1: Operand, dest: Name)
    requires Going(s, t)
    ensures Quiet(s, t, ExecSub(s, op0, op1, dest), ExecSub(t, op0, op1, dest))
  {
    hide ConstU64;
    hide Quiet;
    hide SetInt;
    hide Marked;
    QuietNothing(s, t);
    QuietMarkedSet(s, t, dest, SubUnsupported);
    var l := IntAt(s, op0);
    var v := if HoldsOffset(l) && ConstU64(op1).Some? then PtrOffset(l.value.id, l.value.offset - ConstU64(op1).value) else UnknownInt;
    QuietSet(s, t, dest, UnknownPtr, v);
    QuietThenMark(s, t, s, t, SubPointerRhs);
    QuietThenMark(s, t, SetInt(s, dest, v), SetInt(t, dest, v), SubPointerRhs);
    MarkedGoes(SetInt(s, dest, UnknownInt), SubUnsupported);
    QuietSet(s, t, dest, UnknownPtr, UnknownInt);
    QuietThenMark(s, t, Marked(SetInt(s, dest, UnknownInt), SubUnsupported), Marked(SetInt(t, dest, UnknownInt), SubUnsupported),
      SubPointerRhs);
  }

  lemma MarkedGoes(s: ScanState, why: Reason)
    ensures Marked(s, why).verdict.Fail? == s.verdict.Fail?
  {
  }

  /** The instructions that are neither calls nor accesses. */
  lemma {:induction false} QuietExec(cfg: Config, at: Loc, instr: Instr, s: ScanState, t: ScanState)
    requires Going(s, t) && !instr.Call? && !instr.Store? && !instr.Load?
    ensures Quiet(s, t, Exec(cfg, at, instr, s), Exec(cfg, at, instr, t))
  {
    hide ExecGep;
    hide ExecPtrToInt;
    hide ExecIntToPtr;
    hide ExecBitCast;
    hide ExecAdd;
    hide ExecSub;
    match instr
    case GetElementPtr(base, indices, dest) => QuietGep(cfg, s, t, base, indices, dest);
    case PtrToInt(op, dest) => QuietCasts(s, t, op, dest);
    case IntToPtr(op, dest) => QuietCasts(s, t, op, dest);
    case BitCast(op, dest) => QuietCasts(s, t, op, dest);
    case Add(op0, op1, dest) => QuietAdd(s, t, op0, op1, dest);
    case Sub(op0, op1, dest) => QuietSub(s, t, op0, op1, dest);
    case _ =>
  }

  lemma QuietSpills(s: ScanState, t: ScanState, slot: Name, value: Operand, dest: Name)
    requires Going(s, t)
    ensures Quiet(s, t, RecordSpill(s, slot, value), RecordSpill(t, slot, value))
    ensures Quiet(s, t, RecoverSpill(s, slot, dest), RecoverSpill(t, slot, dest))
    ensures !RecordSpill(s, slot, value).verdict.Fail? && !RecoverSpill(s, slot, dest).verdict.Fail?
  {
  }

  // ------------------------------------------------------------ two scans side by side

  predicate SameQuestions(g: GateState, h: GateState) { g.seen == h.seen && g.seenClasses == h.seenClasses }

  /** The questions of `h` are the first ones of `g`. */
  predicate FewerQuestions(g: GateState, h: GateState) { h.seen <= g.seen && h.seenClasses <= g.seenClasses }

  /** `h` approves whatever `g` approves. */
  predicate Wider(g: GateState, h: GateState) {
    g.mode == h.mode && g.approved <= h.approved && g.approvedClasses <= h.approvedClasses
  }

  /** Both scans are at the same point and go on. */
  predicate Together(s: ScanState, t: ScanState) {
    Going(s, t) && SameQuestions(s.gate, t.gate) && Wider(s.gate, t.gate)
  }

  /** The second scan has failed, at this point or earlier. */
  predicate Ahead(s: ScanState, t: ScanState) {
    t.verdict.Fail? && FewerQuestions(s.gate, t.gate) && Wider(s.gate, t.gate)
  }

  /** Two scans in step, unless the first failed and the solver may have given up on that in the second. */
  predicate InStep(cfg: Config, s: ScanState, t: ScanState) {
    Together(s, t) || Ahead(s, t) || (s.verdict.Fail? && cfg.timeouts != {})
  }

  lemma QuietInStep(cfg: Config, s: ScanState, t: ScanState, a: ScanState, b: ScanState)
    requires Together(s, t) && Quiet(s, t, a, b)
    ensures InStep(cfg, a, b)
    ensures !a.verdict.Fail? ==> Together(a, b)
  {
  }

  lemma AskAlike(g: GateState, h: GateState, vc: string, cls: string)
    requires SameQuestions(g, h) && Wider(g, h)
    ensures SameQuestions(Ask(g, vc, cls), Ask(h, vc, cls)) && Wider(Ask(g, vc, cls), Ask(h, vc, cls))
    ensures Approves(g, vc, cls) ==> Approves(h, vc, cls)
  {
  }

  /** Another question of the first scan. */
  lemma AskMore(g: GateState, h: GateState, vc: string, cls: string)
    requires FewerQuestions(g, h) && Wider(g, h)
    ensures FewerQuestions(Ask(g, vc, cls), h) && Wider(Ask(g, vc, cls), h)
  {
  }

  /** One question, asked by both scans; the second fails wherever the first does, if the solver answers. */
  predicate Asked(cfg: Config, s: ScanState, t: ScanState, a: ScanState, b: ScanState, vc: string, cls: string) {
    && Agree(a, b) && a.gate == Ask(s.gate, vc, cls) && b.gate == Ask(t.gate, vc, cls)
    && (a.verdict.Fail? ==> b.verdict.Fail? || cfg.timeouts != {})
  }

  lemma AskedInStep(cfg: Config, s: ScanState, t: ScanState, a: ScanState, b: ScanState, vc: string, cls: string)
    requires Together(s, t) && Asked(cfg, s, t, a, b, vc, cls)
    ensures InStep(cfg, a, b)
    ensures SameQuestions(a.gate, b.gate) && Wider(a.gate, b.gate)
    ensures !a.verdict.Fail? && !b.verdict.Fail? ==> Together(a, b)
  {
    hide Ask;
    hide Agree;
    AskAlike(s.gate, t.gate, vc, cls);
  }

  /** A bounds check changes nothing but the verdict, the gate and the count of checks. */
  lemma CheckBoundsFacts(cfg: Config, s: ScanState, at: Loc, k: VcKind, id: nat, offset: int, len: U64, cls: string)
    requires !s.verdict.Fail? && id in s.sizes
    ensures var r := CheckBounds(cfg, s, at, k, id, offset, len, cls);
      && Agree(r, s)
      && r.gate == Ask(s.gate, VcId(at, k), cls)
      && (r.verdict.Fail? <==>
            Approves(s.gate, VcId(at, k), cls) && s.checks !in cfg.timeouts && OutOfBounds(s.sizes[id], offset, len))
  {
    hide Ask;
    hide VcId;
    hide Approves;
    hide OutOfBounds;
  }

  lemma CheckBoundsAsked(cfg: Config, s: ScanState, t: ScanState, at: Loc, k: VcKind, id: nat, offset: int, len: U64, cls: string)
    requires Together(s, t) && id in s.sizes
    ensures Asked(cfg, s, t, CheckBounds(cfg, s, at, k, id, offset, len, cls), CheckBounds(cfg, t, at, k, id, offset, len, cls),
      VcId(at, k), cls)
  {
    hide Ask;
    hide VcId;
    hide Approves;
    hide OutOfBounds;
    hide CheckBounds;
    hide SameQuestions;
    hide Wider;
    AskAlike(s.gate, t.gate, VcId(at, k), cls);
    CheckBoundsFacts(cfg, s, at, k, id, offset, len, cls);
    CheckBoundsFacts(cfg, t, at, k, id, offset, len, cls);
  }

  // ------------------------------------------------------------ calls

  lemma {:induction false} BlockAccessInStep(cfg: Config, s: ScanState, t: ScanState, at: Loc, k: VcKind, op: Operand, len: U64)
    requires Together(s, t)
    ensures InStep(cfg, ExecBlockAccess(cfg, s, at, k, op, len), ExecBlockAccess(cfg, t, at, k, op, len))
  {
    hide CheckBounds;
    hide Failed;
    hide Quiet;
    hide Asked;
    hide InStep;
    hide KindText;
    hide SizedClass;
    QuietNothing(s, t);
    QuietInStep(cfg, s, t, s, t);
    if op.Local? && op.name in s.ptrs && s.ptrs[op.name].KmallocPtr? {
      var p, cls := s.ptrs[op.name], SizedClass(KindText(k), len);
      QuietFail(s, t, UseAfterFree(k, at.func));
      QuietInStep(cfg, s, t, Failed(s, UseAfterFree(k, at.func)), Failed(t, UseAfterFree(k, at.func)));
      CheckBoundsInStep(cfg, s, t, at, k, p.id, p.offset, len, cls);
    }
  }

  lemma {:induction false} CheckBoundsInStep(cfg: Config, s: ScanState, t: ScanState, at: Loc, k: VcKind, id: nat, offset: int,
      len: U64, cls: string)
    requires Together(s, t)
    ensures InStep(cfg, CheckBounds(cfg, s, at, k, id, offset, len, cls), CheckBounds(cfg, t, at, k, id, offset, len, cls))
  {
    hide Quiet;
    hide Asked;
    hide InStep;
    hide Marked;
    hide VcId;
    var a, b := CheckBounds(cfg, s, at, k, id, offset, len, cls), CheckBounds(cfg, t, at, k, id, offset, len, cls);
    if id in s.sizes {
      CheckBoundsAsked(cfg, s, t, at, k, id, offset, len, cls);
      AskedInStep(cfg, s, t, a, b, VcId(at, k), cls);
    } else {
      QuietMark(s, t, MissingMetadata);
      QuietInStep(cfg, s, t, a, b);
    }
  }

  lemma MarkInStep(cfg: Config, s: ScanState, t: ScanState, why: Reason)
    requires Together(s, t)
    ensures InStep(cfg, Marked(s, why), Marked(t, why))
  {
    hide Quiet;
    hide Marked;
    QuietMark(s, t, why);
    QuietInStep(cfg, s, t, Marked(s, why), Marked(t, why));
  }

  lemma {:induction false} MemsetInStep(cfg: Config, s: ScanState, t: ScanState, at: Loc, args: seq<Operand>)
    requires Together(s, t)
    ensures InStep(cfg, ExecMemset(cfg, s, at, args), ExecMemset(cfg, t, at, args))
  {
    MarkInStep(cfg, s, t, MemsetNoLength);
    MarkInStep(cfg, s, t, MemsetLengthNotConst);
    assert InStep(cfg, s, t);
    hide InStep;
    hide Marked;
    hide ExecBlockAccess;
    var dest, len := Arg(args, 0), Arg(args, 2);
    if dest.Some? && len.Some? && ConstU64(len.value).Some? {
      BlockAccessInStep(cfg, s, t, at, MemsetVc, dest.value, ConstU64(len.value).value);
    }
  }

  lemma {:induction false} MemcpyInStep(cfg: Config, s: ScanState, t: ScanState, at: Loc, args: seq<Operand>)
    requires Together(s, t)
    ensures InStep(cfg, ExecMemcpy(cfg, s, at, args), ExecMemcpy(cfg, t, at, args))
  {
    MarkInStep(cfg, s, t, MemcpyNoSource);
    MarkInStep(cfg, s, t, MemcpyNoLength);
    MarkInStep(cfg, s, t, MemcpyLengthNotConst);
    assert InStep(cfg, s, t);
    hide Together;
    hide Ahead;
    hide Marked;
    hide ExecBlockAccess;
    var dest, src, len := Arg(args, 0), Arg(args, 1), Arg(args, 2);
    if dest.Some? && src.Some? && len.Some? && ConstU64(len.value).Some? {
      TwoAccesses(cfg, s, t, at, dest.value, src.value, ConstU64(len.value).value);
    }
  }

  /** The destination, then the source unless that failed. */
  function Copy(cfg: Config, s: ScanState, at: Loc, dest: Operand, src: Operand, n: U64): ScanState {
    var t := ExecBlockAccess(cfg, s, at, MemcpyDestVc, dest, n);
    if t.verdict.Fail? then t else ExecBlockAccess(cfg, t, at, MemcpySourceVc, src, n)
  }

  lemma {:induction false} TwoAccesses(cfg: Config, s: ScanState, t: ScanState, at: Loc, dest: Operand, src: Operand, n: U64)
    requires Together(s, t)
    ensures InStep(cfg, Copy(cfg, s, at, dest, src, n), Copy(cfg, t, at, dest, src, n))
  {
    hide ExecBlockAccess;
    hide Ask;
    hide VcId;
    hide KindText;
    hide SizedClass;
    hide Agree;
    var a, b := ExecBlockAccess(cfg, s, at, MemcpyDestVc, dest, n), ExecBlockAccess(cfg, t, at, MemcpyDestVc, dest, n);
    BlockAccessInStep(cfg, s, t, at, MemcpyDestVc, dest, n);
    if !a.verdict.Fail? && !b.verdict.Fail? {
      BlockAccessInStep(cfg, a, b, at, MemcpySourceVc, src, n);
    } else if !a.verdict.Fail? {
      BlockAccessAsks(cfg, a, at, MemcpySourceVc, src, n);
      AskMore(a.gate, b.gate, VcId(at, MemcpySourceVc), SizedClass(KindText(MemcpySourceVc), n));
    }
  }

  lemma AsmFacts(cfg: Config, s: ScanState, at: Loc, text: string)
    requires !s.verdict.Fail?
    ensures var r := ExecAsm(cfg, s, at, text);
      && Agree(r, s) && (r.verdict.Fail? <==> cfg.asmPolicy.Trap?)
      && r.gate == (if cfg.asmPolicy.Trap? || IsSafeAsm(text) then s.gate else Ask(s.gate, VcId(at, InlineAsmVc), ASM_CLASS))
  {
    hide Ask;
    hide VcId;
    hide Approves;
    hide IsSafeAsm;
  }

  lemma {:induction false} AsmInStep(cfg: Config, s: ScanState, t: ScanState, at: Loc, text: string)
    requires Together(s, t)
    ensures InStep(cfg, ExecAsm(cfg, s, at, text), ExecAsm(cfg, t, at, text))
  {
    hide Ask;
    hide VcId;
    hide InStep;
    hide ExecAsm;
    hide IsSafeAsm;
    var a, b := ExecAsm(cfg, s, at, text), ExecAsm(cfg, t, at, text);
    AsmFacts(cfg, s, at, text);
    AsmFacts(cfg, t, at, text);
    if cfg.asmPolicy.Trap? || IsSafeAsm(text) {
      QuietInStep(cfg, s, t, a, b);
    } else {
      AskedInStep(cfg, s, t, a, b, VcId(at, InlineAsmVc), ASM_CLASS);
    }
  }

  lemma {:induction false} DmaAllocInStep(cfg: Config, s: ScanState, t: ScanState, at: Loc, args: seq<Operand>, dest: Option<Name>)
    requires Together(s, t)
    ensures InStep(cfg, ExecDmaAlloc(s, at, args, dest), ExecDmaAlloc(t, at, args, dest))
  {
    MarkInStep(cfg, s, t, DmaAllocNoSize);
    MarkInStep(cfg, s, t, DmaAllocSizeNotConst);
    hide InStep;
    hide Marked;
    hide Allocate;
    hide Ask;
    hide VcId;
    hide KindText;
    hide SizedClass;
    var op := Arg(args, 1);
    if op.Some? && ConstU64(op.value).Some? {
      var size := ConstU64(op.value).value;
      QuietAllocate(s, t, size, dest, true);
      var cls := SizedClass(KindText(DmaAllocVc), size);
      AskedInStep(cfg, s, t, ExecDmaAlloc(s, at, args, dest), ExecDmaAlloc(t, at, args, dest), VcId(at, DmaAllocVc), cls);
    }
  }

  /** What `dma_map_single` does with a tracked pointer. */
  function DmaChecked(cfg: Config, s: ScanState, at: Loc, id: nat, offset: int, n: U64): ScanState
    requires id in s.sizes
  {
    var (t, r) := CheckAccess(cfg, s, s.sizes[id], offset, n, VcId(at, DmaMapVc), SizedClass("dma_bounds", n));
    Settle(if r.Safe? then t else t.(dmaVcs := t.dmaVcs + 1), r, DmaMapVc, at)
  }

  lemma DmaMapFacts(cfg: Config, s: ScanState, at: Loc, id: nat, offset: int, n: U64)
    requires !s.verdict.Fail? && id in s.sizes
    ensures var r, vc, cls := DmaChecked(cfg, s, at, id, offset, n), VcId(at, DmaMapVc), SizedClass("dma_bounds", n);
      && Agree(r, s) && r.gate == Ask(s.gate, vc, cls)
      && (r.verdict.Fail? <==> Approves(s.gate, vc, cls) && s.checks !in cfg.timeouts && OutOfBounds(s.sizes[id], offset, n))
  {
    hide Ask;
    hide VcId;
    hide Approves;
    hide OutOfBounds;
    hide SizedClass;
  }

  lemma {:induction false} DmaCheckedInStep(cfg: Config, s: ScanState, t: ScanState, at: Loc, id: nat, offset: int, n: U64)
    requires Together(s, t) && id in s.sizes
    ensures InStep(cfg, DmaChecked(cfg, s, at, id, offset, n), DmaChecked(cfg, t, at, id, offset, n))
  {
    hide InStep;
    hide DmaChecked;
    hide Ask;
    hide Approves;
    hide OutOfBounds;
    hide VcId;
    hide SizedClass;
    var a, b := DmaChecked(cfg, s, at, id, offset, n), DmaChecked(cfg, t, at, id, offset, n);
    DmaMapFacts(cfg, s, at, id, offset, n);
    DmaMapFacts(cfg, t, at, id, offset, n);
    AskAlike(s.gate, t.gate, VcId(at, DmaMapVc), SizedClass("dma_bounds", n));
    AskedInStep(cfg, s, t, a, b, VcId(at, DmaMapVc), SizedClass("dma_bounds", n));
  }

  predicate TracksDma(s: ScanState, args: seq<Operand>) {
    && |args| > 2 && ConstU64(args[2]).Some?
    && args[1].Local? && args[1].name in s.ptrs && !s.ptrs[args[1].name].UnknownPtr? && s.ptrs[args[1].name].id in s.sizes
  }

  lemma DmaMapIs(cfg: Config, s: ScanState, at: Loc, args: seq<Operand>)
    requires TracksDma(s, args)
    ensures var p := s.ptrs[args[1].name];
      ExecDmaMap(cfg, s, at, args) == DmaChecked(cfg, s, at, p.id, p.offset, ConstU64(args[2]).value)
  {
    hide CheckAccess;
    hide Settle;
    hide VcId;
    hide SizedClass;
  }

  lemma {:induction false} DmaMapInStep(cfg: Config, s: ScanState, t: ScanState, at: Loc, args: seq<Operand>)
    requires Together(s, t)
    ensures InStep(cfg, ExecDmaMap(cfg, s, at, args), ExecDmaMap(cfg, t, at, args))
  {
    hide DmaChecked;
    if TracksDma(s, args) {
      hide ExecDmaMap;
      hide InStep;
      DmaMapIs(cfg, s, at, args);
      DmaMapIs(cfg, t, at, args);
      DmaCheckedInStep(cfg, s, t, at, s.ptrs[args[1].name].id, s.ptrs[args[1].name].offset, ConstU64(args[2]).value);
    } else {
      MarkInStep(cfg, s, t, DmaMapNoPointer);
      MarkInStep(cfg, s, t, DmaMapNoSize);
      MarkInStep(cfg, s, t, DmaMapSizeNotConst);
      assert InStep(cfg, s, t);
      hide InStep;
      hide Marked;
      hide CheckAccess;
      hide Settle;
    }
  }

  lemma {:induction false} CallInStep(cfg: Config, s: ScanState, t: ScanState, at: Loc, callee: Callee, args: seq<Operand>,
      dest: Option<Name>)
    requires Together(s, t)
    ensures InStep(cfg, ExecCall(cfg, s, at, callee, args, dest), ExecCall(cfg, t, at, callee, args, dest))
  {
    QuietNothing(s, t);
    QuietInStep(cfg, s, t, s, t);
    hide RoutineNamed;
    hide ExecKmalloc;
    hide ExecKcalloc;
    hide ExecKfree;
    hide ExecIommuMap;
    hide ExecMemset;
    hide ExecMemcpy;
    hide ExecDmaAlloc;
    hide ExecDmaMap;
    hide ExecAsm;
    hide InStep;
    hide Quiet;
    if callee.Asm? {
      AsmInStep(cfg, s, t, at, callee.text);
    }
    if CalleeName(callee).Some? {
      match RoutineNamed(CalleeName(callee).value)
      case Kmalloc =>
        QuietKmalloc(s, t, args, dest);
        QuietInStep(cfg, s, t, ExecKmalloc(s, args, dest), ExecKmalloc(t, args, dest));
      case Kcalloc =>
        QuietKcalloc(s, t, args, dest);
        QuietInStep(cfg, s, t, ExecKcalloc(s, args, dest), ExecKcalloc(t, args, dest));
      case Kfree =>
        QuietKfree(s, t, at, args);
        QuietInStep(cfg, s, t, ExecKfree(s, at, args), ExecKfree(t, at, args));
      case Memset => MemsetInStep(cfg, s, t, at, args);
      case Memcpy => MemcpyInStep(cfg, s, t, at, args);
      case DmaAlloc => DmaAllocInStep(cfg, s, t, at, args, dest);
      case DmaMap => DmaMapInStep(cfg, s, t, at, args);
      case IommuMap => IommuMapInStep(cfg, s, t);
      case OtherRoutine =>
    }
  }

  lemma IommuMapInStep(cfg: Config, s: ScanState, t: ScanState)
    requires Together(s, t)
    ensures InStep(cfg, ExecIommuMap(s), ExecIommuMap(t))
  {
    QuietInStep(cfg, s, t, ExecIommuMap(s), ExecIommuMap(t));
  }

  // ------------------------------------------------------------ loads and stores

  lemma IrqRaceFacts(s: ScanState, at: Loc, k: VcKind, id: nat)
    requires !s.verdict.Fail?
    ensures var r := ExecIrqRace(s, at, k, id);
      Agree(r, s) && !r.verdict.Fail? && r.gate == Ask(s.gate, VcId(at, k), IrqClass(id))
  {
    hide Ask;
    hide VcId;
    hide Approves;
    hide IrqClass;
  }

  lemma {:induction false} IrqRaceInStep(cfg: Config, s: ScanState, t: ScanState, at: Loc, k: VcKind, id: nat)
    requires Together(s, t)
    ensures InStep(cfg, ExecIrqRace(s, at, k, id), ExecIrqRace(t, at, k, id))
  {
    hide Ask;
    hide VcId;
    hide IrqClass;
    hide ExecIrqRace;
    hide InStep;
    IrqRaceFacts(s, at, k, id);
    IrqRaceFacts(t, at, k, id);
    AskedInStep(cfg, s, t, ExecIrqRace(s, at, k, id), ExecIrqRace(t, at, k, id), VcId(at, k), IrqClass(id));
  }

  lemma {:induction false} SizedAccessInStep(cfg: Config, s: ScanState, t: ScanState, at: Loc, k: VcKind, id: nat, offset: int, n: U64)
    requires Together(s, t)
    ensures InStep(cfg, ExecSizedAccess(cfg, s, at, k, id, offset, n), ExecSizedAccess(cfg, t, at, k, id, offset, n))
  {
    hide CheckBounds;
    hide ExecIrqRace;
    hide Ask;
    hide VcId;
    hide IrqClass;
    hide KindText;
    hide SizedClass;
    var irq, cls := if k.StoreVc? then IrqStoreVc else IrqLoadVc, SizedClass(KindText(k), n);
    var a, b := CheckBounds(cfg, s, at, k, id, offset, n, cls), CheckBounds(cfg, t, at, k, id, offset, n, cls);
    CheckBoundsInStep(cfg, s, t, at, k, id, offset, n, cls);
    if id in s.sizes && cfg.irqRisk && !a.verdict.Fail? {
      if b.verdict.Fail? {
        IrqRaceFacts(a, at, irq, id);
        AskMore(a.gate, b.gate, VcId(at, irq), IrqClass(id));
      } else {
        IrqRaceInStep(cfg, a, b, at, irq, id);
      }
    }
  }

  lemma {:induction false} AccessInStep(cfg: Config, s: ScanState, t: ScanState, at: Loc, k: VcKind, p: PtrVal, ty: Type)
    requires Together(s, t) && (k.StoreVc? || k.LoadVc?)
    ensures InStep(cfg, ExecAccess(cfg, s, at, k, p, ty), ExecAccess(cfg, t, at, k, p, ty))
  {
    QuietNothing(s, t);
    QuietInStep(cfg, s, t, s, t);
    MarkInStep(cfg, s, t, if k.StoreVc? then StoreUnsized else LoadUnsized);
    QuietFail(s, t, UseAfterFree(k, at.func));
    hide Quiet;
    hide Failed;
    hide Marked;
    hide InStep;
    hide ExecSizedAccess;
    hide SizeOf;
    QuietInStep(cfg, s, t, Failed(s, UseAfterFree(k, at.func)), Failed(t, UseAfterFree(k, at.func)));
    if !p.UnknownPtr? && SizeOf(ty, cfg.defs).Some? {
      SizedAccessInStep(cfg, s, t, at, k, p.id, p.offset, SizeOf(ty, cfg.defs).value);
    }
  }

  lemma {:induction false} StoreInStep(cfg: Config, s: ScanState, t: ScanState, at: Loc, address: Operand, value: Operand)
    requires Together(s, t)
    ensures InStep(cfg, ExecStore(cfg, s, at, address, value), ExecStore(cfg, t, at, address, value))
  {
    hide ExecAccess;
    hide RecordSpill;
    if address.Local? {
      var a, b := RecordSpill(s, address.name, value), RecordSpill(t, address.name, value);
      QuietSpills(s, t, address.name, value, address.name);
      QuietInStep(cfg, s, t, a, b);
      hide InStep;
      if address.name in a.ptrs {
        AccessInStep(cfg, a, b, at, StoreVc, a.ptrs[address.name], TypeOf(value));
      }
    }
  }

  lemma {:induction false} LoadInStep(cfg: Config, s: ScanState, t: ScanState, at: Loc, address: Operand, ty: Type, dest: Name)
    requires Together(s, t)
    ensures InStep(cfg, ExecLoad(cfg, s, at, address, ty, dest), ExecLoad(cfg, t, at, address, ty, dest))
  {
    hide ExecAccess;
    hide RecoverSpill;
    if address.Local? {
      var a, b := RecoverSpill(s, address.name, dest), RecoverSpill(t, address.name, dest);
      QuietSpills(s, t, address.name, address, dest);
      QuietInStep(cfg, s, t, a, b);
      hide InStep;
      if address.name in a.ptrs {
        AccessInStep(cfg, a, b, at, LoadVc, a.ptrs[address.name], ty);
      }
    }
  }

  // ------------------------------------------------------------ whole scans

  lemma {:induction false} ExecInStep(cfg: Config, at: Loc, instr: Instr, s: ScanState, t: ScanState)
    requires Together(s, t)
    ensures InStep(cfg, Exec(cfg, at, instr, s), Exec(cfg, at, instr, t))
  {
    hide InStep;
    hide ExecCall;
    hide ExecStore;
    hide ExecLoad;
    match instr
    case Call(callee, args, result) => CallInStep(cfg, s, t, at, callee, args, result);
    case Store(address, value) => StoreInStep(cfg, s, t, at, address, value);
    case Load(address, ty, dest) => LoadInStep(cfg, s, t, at, address, ty, dest);
    case _ =>
      hide Exec;
      QuietExec(cfg, at, instr, s, t);
      QuietInStep(cfg, s, t, Exec(cfg, at, instr, s), Exec(cfg, at, instr, t));
  }

  lemma {:induction false} AskAllMore(g: GateState, h: GateState, at: Loc, ks: seq<VcKind>, cs: seq<string>)
    requires FewerQuestions(g, h) && Wider(g, h) && |ks| == |cs|
    ensures FewerQuestions(AskAll(g, at, ks, cs), h) && Wider(AskAll(g, at, ks, cs), h)
    decreases |ks|
  {
    hide Ask;
    hide VcId;
    hide FewerQuestions;
    hide Wider;
    if ks != [] {
      AskMore(g, h, VcId(at, ks[0]), cs[0]);
      AskAllMore(Ask(g, VcId(at, ks[0]), cs[0]), h, at, ks[1..], cs[1..]);
    }
  }

  /** A scan that failed stays a part of one that goes on. */
  lemma {:induction false} RunBehind(cfg: Config, sites: seq<Site>, s: ScanState, t: ScanState)
    requires Ahead(s, t)
    ensures Ahead(RunSites(cfg, sites, s), t)
    decreases |sites|
  {
    hide Exec;
    hide FewerQuestions;
    hide Wider;
    if sites != [] && !s.verdict.Fail? {
      var x := sites[0];
      var ks, cs := ExecAsks(cfg, x.at, x.instr, s);
      AskAllMore(s.gate, t.gate, x.at, ks, cs);
      RunBehind(cfg, sites[1..], Exec(cfg, x.at, x.instr, s), t);
    }
  }

  lemma {:induction false} RunInStep(cfg: Config, sites: seq<Site>, s: ScanState, t: ScanState)
    requires InStep(cfg, s, t)
    ensures InStep(cfg, RunSites(cfg, sites, s), RunSites(cfg, sites, t))
    decreases |sites|
  {
    hide Exec;
    hide Agree;
    hide FewerQuestions;
    hide SameQuestions;
    hide Wider;
    if s.verdict.Fail? && cfg.timeouts != {} {
    } else if Ahead(s, t) {
      RunBehind(cfg, sites, s, t);
    } else if sites != [] {
      var x := sites[0];
      ExecInStep(cfg, x.at, x.instr, s, t);
      RunInStep(cfg, sites[1..], Exec(cfg, x.at, x.instr, s), Exec(cfg, x.at, x.instr, t));
    }
  }

  /**
   A scan with more approvals asks the same questions in the same order, or stops at a failure
   before asking all of them; the first scan must not have failed unless the solver always answers.
   */
  lemma {:induction false} QuestionsDoNotDependOnApprovals(cfg: Config, fs: seq<Function>, gate: GateState, again: GateState)
    requires FreshGate(gate) && FreshGate(again) && Wider(gate, again)
    requires cfg.timeouts == {} || !RunModule(cfg, fs, 0, InitialState(gate)).verdict.Fail?
    ensures var first, second := RunModule(cfg, fs, 0, InitialState(gate)), RunModule(cfg, fs, 0, InitialState(again));
      && FewerQuestions(first.gate, second.gate)
      && (!second.verdict.Fail? ==> SameQuestions(first.gate, second.gate) && !first.verdict.Fail?)
  {
    hide Exec;
    hide RunSites;
    var s, t := InitialState(gate), InitialState(again);
    ModuleIsFlat(cfg, fs, 0, s);
    ModuleIsFlat(cfg, fs, 0, t);
    hide RunModule;
    RunInStep(cfg, ModuleSites(fs, 0), s, t);
  }

  lemma {:induction false} UnapprovedIsListed(g: GateState, ids: seq<string>, classes: seq<string>, i: nat)
    requires |ids| == |classes| && i < |ids| && !Approves(g, ids[i], classes[i])
    ensures Entry(ids[i], classes[i]) in Unapproved(g, ids, classes)
  {
    hide Approves;
    var k := |ids| - 1;
    if i < k {
      UnapprovedIsListed(g, ids[..k], classes[..k], i);
    }
  }

  /** Whatever a scan asked without approval is among what it blocked. */
  lemma {:induction false} AskedOrBlocked(g: GateState, i: nat) returns (j: nat)
    requires Faithful(g) && i < |g.seen| && !Approves(g, g.seen[i], g.seenClasses[i])
    ensures j < |g.blocked| && g.blocked[j] == g.seen[i] && g.blockedClasses[j] == g.seenClasses[i]
  {
    UnapprovedIsListed(g, g.seen, g.seenClasses, i);
    var u := Unapproved(g, g.seen, g.seenClasses);
    j :| 0 <= j < |u| && u[j] == Entry(g.seen[i], g.seenClasses[i]);
  }

  lemma {:induction false} ScanIsFaithful(cfg: Config, fs: seq<Function>, gate: GateState)
    requires FreshGate(gate)
    ensures var g := RunModule(cfg, fs, 0, InitialState(gate)).gate;
      Faithful(g) && g.mode == gate.mode && g.approved == gate.approved && g.approvedClasses == gate.approvedClasses
  {
    hide Exec;
    ModuleIsFlat(cfg, fs, 0, InitialState(gate));
    assert Unapproved(gate, [], []) == [];
    RunFaithful(cfg, ModuleSites(fs, 0), InitialState(gate));
  }

  /**
   One round of review is enough: after approving everything a scan blocked, by id or by class, the
   next scan blocks nothing, provided the first did not fail or the solver always answers.
   */
  lemma {:induction false} OneReviewIsEnough(cfg: Config, fs: seq<Function>, gate: GateState, again: GateState)
    requires FreshGate(gate) && FreshGate(again) && Wider(gate, again)
    requires cfg.timeouts == {} || !RunModule(cfg, fs, 0, InitialState(gate)).verdict.Fail?
    requires var g := RunModule(cfg, fs, 0, InitialState(gate)).gate;
      |g.blocked| == |g.blockedClasses| &&
      forall j :: 0 <= j < |g.blocked| ==> g.blocked[j] in again.approved || g.blockedClasses[j] in again.approvedClasses
    ensures RunModule(cfg, fs, 0, InitialState(again)).gate.blocked == []
  {
    hide RunModule;
    hide Faithful;
    var g, h := RunModule(cfg, fs, 0, InitialState(gate)).gate, RunModule(cfg, fs, 0, InitialState(again)).gate;
    QuestionsDoNotDependOnApprovals(cfg, fs, gate, again);
    ScanIsFaithful(cfg, fs, gate);
    ScanIsFaithful(cfg, fs, again);
    NothingBlocked(h);
    LengthsMatch(g);
    LengthsMatch(h);
    forall i | 0 <= i < |h.seen| ensures Approves(h, h.seen[i], h.seenClasses[i]) {
      assert h.seen[i] == g.seen[i] && h.seenClasses[i] == g.seenClasses[i];
      if !Approves(g, g.seen[i], g.seenClasses[i]) {
        var j := AskedOrBlocked(g, i);
      }
    }
  }

  lemma LengthsMatch(g: GateState)
    requires Faithful(g)
    ensures |g.seen| == |g.seenClasses| && |g.blocked| == |g.blockedClasses|
  {
  }

  // ------------------------------------------------------------ when one review is not enough

  const BLOCK: Operand := Local(Number(0), PointerType(0))

  function Num(n: U64): Operand { Const(IntConst(64, n), IntegerType(64)) }

  function Calling(name: string, args: seq<Operand>, result: Option<Name>): Instr {
    Call(Fn(Const(GlobalRef(Named(name)), PointerType(0))), args, result)
  }

  function Fill(n: U64): Instr { Calling("memset", [BLOCK, Num(0), Num(n)], None) }

  /** Allocate eight bytes, fill four of them, fill sixteen, fill one. */
  function FillThrice(): seq<Instr> { [Calling("kmalloc", [Num(8)], Some(Number(0))), Fill(4), Fill(16), Fill(1)] }

  function FillId(i: nat): string { VcId(Loc("f", 0, i), MemsetVc) }

  function Holding(gate: GateState, checks: nat): ScanState {
    InitialState(gate).(ptrs := map[Number(0) := KmallocPtr(0, 0)], sizes := map[0 := 8], counter := 1, checks := checks)
  }

  function FillClass(n: U64): string { SizedClass(KindText(MemsetVc), n) }

  lemma FillStep(cfg: Config, s: ScanState, i: nat, n: U64)
    requires !s.verdict.Fail? && Number(0) in s.ptrs && s.ptrs[Number(0)] == KmallocPtr(0, 0)
    requires 0 !in s.freed && 0 in s.sizes && s.sizes[0] == 8
    ensures Exec(cfg, Loc("f", 0, i), Fill(n), s) == CheckBounds(cfg, s, Loc("f", 0, i), MemsetVc, 0, 0, n, FillClass(n))
  {
    hide CheckBounds;
    hide VcId;
    hide SizedClass;
    hide KindText;
  }

  /** The gate before any question, when only the ids in `ids` are approved. */
  function Approving(ids: set<string>): GateState { GateState(Require, ids, {}, [], [], [], []) }

  lemma FourSteps(cfg: Config, gate: GateState)
    ensures var fs, s := [Function("f", [FillThrice()])], InitialState(gate);
      var one := Exec(cfg, Loc("f", 0, 0), FillThrice()[0], s);
      var two := Exec(cfg, Loc("f", 0, 1), Fill(4), one);
      var three := Exec(cfg, Loc("f", 0, 2), Fill(16), two);
      !one.verdict.Fail? && !two.verdict.Fail? ==>
        RunModule(cfg, fs, 0, s) == if three.verdict.Fail? then three else Exec(cfg, Loc("f", 0, 3), Fill(1), three)
  {
    hide Exec;
    var fs, s := [Function("f", [FillThrice()])], InitialState(gate);
    var sites := BlockSites("f", 0, FillThrice(), 0);
    ModuleIsFlat(cfg, fs, 0, s);
    assert FunctionSites(fs[0], 1) == [] && ModuleSites(fs, 1) == [];
    assert ModuleSites(fs, 0) == sites;
    assert sites == [Site(Loc("f", 0, 0), FillThrice()[0]), Site(Loc("f", 0, 1), Fill(4)), Site(Loc("f", 0, 2), Fill(16)),
      Site(Loc("f", 0, 3), Fill(1))];
    assert sites[1..][1..] == [Site(Loc("f", 0, 2), Fill(16)), Site(Loc("f", 0, 3), Fill(1))];
    assert sites[1..][1..][1..] == [Site(Loc("f", 0, 3), Fill(1))];
    assert sites[1..][1..][1..][1..] == [];
  }

  lemma {:induction false} FillIdDiffers(i: nat, j: nat)
    requires i != j
    ensures FillId(i) != FillId(j)
  {
    hide VcId;
    if FillId(i) == FillId(j) {
      VcIdInjective(Loc("f", 0, i), MemsetVc, Loc("f", 0, j), MemsetVc);
    }
  }

  lemma FirstStep(cfg: Config, gate: GateState)
    ensures Exec(cfg, Loc("f", 0, 0), FillThrice()[0], InitialState(gate)) == Holding(gate, 0)
  {
  }

  /** With only the second fill approved, the first is blocked and the second fails. */
  lemma {:induction false} FirstReview(cfg: Config, gate: GateState)
    requires cfg.timeouts == {1} && gate == Approving({FillId(2)})
    ensures var r := RunModule(cfg, [Function("f", [FillThrice()])], 0, InitialState(gate));
      r.verdict.Fail? && r.gate.blocked == [FillId(1)] && r.gate.blockedClasses == [FillClass(4)]
  {
    hide VcId;
    hide SizedClass;
    hide KindText;
    hide Exec;
    FillIdDiffers(1, 2);
    FirstStep(cfg, gate);
    var one := Holding(gate, 0);
    FillStep(cfg, one, 1, 4);
    var two := Exec(cfg, Loc("f", 0, 1), Fill(4), one);
    FillStep(cfg, two, 2, 16);
    FourSteps(cfg, gate);
  }

  /** With both approved, the solver gives up on the second fill, so the third is asked and blocked. */
  lemma {:induction false} SecondReview(cfg: Config, gate: GateState)
    requires cfg.timeouts == {1} && gate == Approving({FillId(1), FillId(2)})
    ensures RunModule(cfg, [Function("f", [FillThrice()])], 0, InitialState(gate)).gate.blocked == [FillId(3)]
  {
    hide VcId;
    hide SizedClass;
    hide KindText;
    hide Exec;
    FillIdDiffers(1, 3);
    FillIdDiffers(2, 3);
    FirstStep(cfg, gate);
    var one := Holding(gate, 0);
    FillStep(cfg, one, 1, 4);
    var two := Exec(cfg, Loc("f", 0, 1), Fill(4), one);
    FillStep(cfg, two, 2, 16);
    var three := Exec(cfg, Loc("f", 0, 2), Fill(16), two);
    FillStep(cfg, three, 3, 1);
    FourSteps(cfg, gate);
  }

  /** With a failed first scan and a solver that gives up, a second round of review can be needed. */
  lemma {:induction false} OneReviewMayNotBeEnough(cfg: Config) returns (fs: seq<Function>, gate: GateState, again: GateState)
    requires cfg.timeouts == {1}
    ensures FreshGate(gate) && FreshGate(again) && Wider(gate, again)
    ensures forall id :: id in RunModule(cfg, fs, 0, InitialState(gate)).gate.blocked ==> id in again.approved
    ensures RunModule(cfg, fs, 0, InitialState(again)).gate.blocked != []
  {
    hide VcId;
    hide RunModule;
    fs, gate, again := [Function("f", [FillThrice()])], Approving({FillId(2)}), Approving({FillId(1), FillId(2)});
    FirstReview(cfg, gate);
    SecondReview(cfg, again);
  }
}
