/**
 Short programs with every constant a parameter: an allocation of each kind, a pointer into it made in
 each way, and an access of each kind. From any reachable state the scan decides them by arithmetic on
 the constants alone.
 */
module Programs {
  import opened Common
  import opened Types
  import opened TypeSize
  import opened Ir
  import opened Gep
  import opened Gate
  import opened Scan
  import opened ScanFacts
  import opened Verdicts

  // ------------------------------------------------------------ texts

  function U64Operand(n: U64): Operand { Const(IntConst(64, n), IntegerType(64)) }

  function Pointer(n: Name): Operand { Local(n, PointerType(0)) }

  function Direct(name: string): Callee { Fn(Const(GlobalRef(Named(name)), PointerType(0))) }

  /** The four ways to get a block of `v` bytes; the other operands are arbitrary. */
  datatype Source = Kmalloc(v: U64) | Kzalloc(v: U64) | Kcalloc(n: U64, each: U64) | Dma(device: Operand, v: U64)

  function Bytes(src: Source): nat {
    match src
    case Kmalloc(v) => v
    case Kzalloc(v) => v
    case Kcalloc(n, each) => n * each
    case Dma(_, v) => v
  }

  function Allocation(src: Source, p: Name): Instr {
    match src
    case Kmalloc(v) => Call(Direct("kmalloc"), [U64Operand(v)], Some(p))
    case Kzalloc(v) => Call(Direct("kzalloc"), [U64Operand(v)], Some(p))
    case Kcalloc(n, each) => Call(Direct("kcalloc"), [U64Operand(n), U64Operand(each)], Some(p))
    case Dma(device, v) => Call(Direct("dma_alloc_coherent"), [device, U64Operand(v)], Some(p))
  }

  /** The ways to touch bytes at a pointer; the other operands are arbitrary. */
  datatype Touch =
    | StoreOf(value: Operand)
    | LoadOf(ty: Type, dest: Name)
    | Fill(byte: Operand, n: U64)
    | CopyTo(src: Operand, n: U64)
    | CopyFrom(to: Operand, n: U64)
    | MapDma(device: Operand, n: U64)

  function TouchInstr(t: Touch, p: Name): Instr {
    match t
    case StoreOf(value) => Store(Pointer(p), value)
    case LoadOf(ty, dest) => Load(Pointer(p), ty, dest)
    case Fill(byte, n) => Call(Direct("memset"), [Pointer(p), byte, U64Operand(n)], None)
    case CopyTo(src, n) => Call(Direct("memcpy"), [Pointer(p), src, U64Operand(n)], None)
    case CopyFrom(to, n) => Call(Direct("memcpy"), [to, Pointer(p), U64Operand(n)], None)
    case MapDma(device, n) => Call(Direct("dma_map_single"), [device, Pointer(p), U64Operand(n)], None)
  }

  /** How many bytes it touches, if the type has a size. */
  function Length(t: Touch, defs: Defs): Option<U64>
    requires Acyclic(defs)
  {
    match t
    case StoreOf(value) => SizeOf(TypeOf(value), defs)
    case LoadOf(ty, _) => SizeOf(ty, defs)
    case Fill(_, n) => Some(n)
    case CopyTo(_, n) => Some(n)
    case CopyFrom(_, n) => Some(n)
    case MapDma(_, n) => Some(n)
  }

  /** Nothing stands between an access and its decision: gate off, a deciding solver, no freeing handler, DMA tracked. */
  predicate Plainly(cfg: Config, s: ScanState) {
    cfg.timeouts == {} && !cfg.irqRisk && !cfg.dma.Ignore? && s.gate.mode.Off? && s.verdict.Pass?
  }

  /** The other operand of a copy is a constant, so only one side is checked. */
  predicate OneSided(t: Touch) {
    match t
    case CopyTo(src, _) => src.Const?
    case CopyFrom(to, _) => to.Const?
    case _ => true
  }

  // ------------------------------------------------------------ what one instruction makes known

  function NewPointer(src: Source, id: nat): PtrVal { if src.Dma? then DmaPtr(id, 0) else KmallocPtr(id, 0) }

  lemma {:induction false} AllocationKnown(cfg: Config, s: ScanState, at: Loc, src: Source, p: Name)
    requires Inv(s) && Plainly(cfg, s) && Bytes(src) < 0x1_0000_0000_0000_0000
    ensures var t := Exec(cfg, at, Allocation(src, p), s);
      && Inv(t) && Plainly(cfg, t)
      && t.ptrs == s.ptrs[p := NewPointer(src, s.counter)]
      && t.sizes == s.sizes[s.counter := Bytes(src)] && t.freed == s.freed && s.counter !in t.freed
      && t.ints == s.ints && t.slots == s.slots && t.slotNames == s.slotNames
  {
    hide VcId;
    hide SizedClass;
    hide KindText;
    ExecStep(cfg, at, Allocation(src, p), s);
    assert s.counter !in s.freed;
    hide Inv;
    hide Step;
  }

  /** The pointer moved by `n` bytes. */
  function Moved(p: PtrVal, n: int): PtrVal {
    match p
    case UnknownPtr => UnknownPtr
    case KmallocPtr(id, o) => KmallocPtr(id, o + n)
    case DmaPtr(id, o) => DmaPtr(id, o + n)
  }

  /** Bytes an index list moves a pointer: eight per unit of the first index, four per unit of the others, each product at most 2^64 - 1. */
  function IndexBytes(ns: seq<U64>): nat
    decreases |ns|
  {
    if ns == [] then 0 else
    var k := |ns| - 1;
    var product: nat := (ns[k] as nat) * (if k == 0 then 8 else 4);
    IndexBytes(ns[..k]) + (if product <= 0xFFFF_FFFF_FFFF_FFFF then product else 0xFFFF_FFFF_FFFF_FFFF)
  }

  function Indices(ns: seq<U64>): seq<Operand> { seq(|ns|, i requires 0 <= i < |ns| => U64Operand(ns[i])) }

  lemma {:induction false} DeltaOfIndices(ns: seq<U64>, i: nat, defs: Defs)
    requires Acyclic(defs) && i <= |ns|
    ensures var d := Delta(Indices(ns), i, PointerType(0), defs);
      d.Some? && IndexBytes(ns[..i]) + d.value == IndexBytes(ns)
    decreases |ns| - i
  {
    hide SizeOf;
    if i == |ns| {
      assert ns[..i] == ns;
    } else {
      DeltaOfIndices(ns, i + 1, defs);
      assert ns[..i + 1][..i] == ns[..i];
    }
  }

  lemma {:induction false} GepKnown(cfg: Config, s: ScanState, at: Loc, base: Name, ns: seq<U64>, q: Name)
    requires Inv(s) && Plainly(cfg, s) && base in s.ptrs
    ensures var t := Exec(cfg, at, GetElementPtr(Pointer(base), Indices(ns), q), s);
      Inv(t) && t == s.(ptrs := s.ptrs[q := Moved(s.ptrs[base], IndexBytes(ns))])
  {
    hide Delta;
    hide Inv;
    ExecStep(cfg, at, GetElementPtr(Pointer(base), Indices(ns), q), s);
    DeltaOfIndices(ns, 0, cfg.defs);
    assert ns[..0] == [];
  }

  /** Whether the scan looks at the access at all: block routines are not followed through DMA pointers. */
  predicate LooksAt(t: Touch, p: PtrVal) {
    !p.UnknownPtr? && (t.Fill? || t.CopyTo? || t.CopyFrom? ==> p.KmallocPtr?)
  }

  /** The bytes lie in the block. */
  predicate Fits(offset: int, len: nat, size: nat) { 0 <= offset && offset + len <= size }

  lemma {:induction false} TouchChecks(cfg: Config, s: ScanState, t: Touch, q: Name)
    requires Plainly(cfg, s) && q in s.ptrs && q !in s.slotNames && OneSided(t)
    ensures var cs := Checks(cfg, s, TouchInstr(t, q));
      if LooksAt(t, s.ptrs[q]) then
        && |cs| == 1 && cs[0].id == s.ptrs[q].id && cs[0].offset == s.ptrs[q].offset
        && cs[0].len == Length(t, cfg.defs) && (cs[0].mustLive <==> !t.MapDma?)
      else cs == []
  {
    hide SizeOf;
    hide SizedClass;
    hide KindText;
  }

  lemma TouchText(cfg: Config, s: ScanState, t: Touch, q: Name)
    requires Plainly(cfg, s) && OneSided(t)
    ensures var instr := TouchInstr(t, q);
      TextOk(cfg, instr) && Followed(cfg, s, instr) && !DoubleFrees(s, instr) && !Overflows(instr)
      && !(instr.Call? && instr.callee.Asm?)
  {
    hide IsSafeAsm;
    hide SizeOf;
  }

  lemma OneCheck(cfg: Config, s: ScanState, at: Loc, c: Check)
    requires Plainly(cfg, s) && c.id in s.sizes
    ensures var dead := c.id in s.freed && c.mustLive;
      && (Proved(cfg, s, at, c, s.checks) <==> !dead && c.len.Some? && Fits(c.offset, c.len.value, s.sizes[c.id]))
      && (Refuted(cfg, s, at, c, s.checks) <==> dead || (c.len.Some? && !Fits(c.offset, c.len.value, s.sizes[c.id])))
  {
    hide VcId;
  }

  /** An access through a known pointer: fails on a freed block or out of its bounds, and passes if sized and inside. */
  lemma {:induction false} TouchDecided(cfg: Config, s: ScanState, at: Loc, t: Touch, q: Name)
    requires Inv(s) && Plainly(cfg, s) && q in s.ptrs && q !in s.slotNames && OneSided(t) && LooksAt(t, s.ptrs[q])
    ensures s.ptrs[q].id in s.sizes
    ensures var v, len := Exec(cfg, at, TouchInstr(t, q), s).verdict, Length(t, cfg.defs);
      var size, o := s.sizes[s.ptrs[q].id], s.ptrs[q].offset;
      var dead := s.ptrs[q].id in s.freed && !t.MapDma?;
      && (v.Fail? <==> dead || (len.Some? && !Fits(o, len.value, size)))
      && (v.Pass? <==> !dead && len.Some? && Fits(o, len.value, size))
  {
    KnownPtr(s, q);
    assert s.ptrs[q].id in s.sizes;
    hide Inv;
    hide Exec;
    hide Checks;
    hide Length;
    hide TextOk;
    hide Followed;
    hide DoubleFrees;
    hide Overflows;
    hide TouchInstr;
    hide Proved;
    hide Refuted;
    var instr := TouchInstr(t, q);
    ExecDecided(cfg, s, at, instr);
    TouchChecks(cfg, s, t, q);
    TouchText(cfg, s, t, q);
    var c := Checks(cfg, s, instr)[0];
    OneCheck(cfg, s, at, c);
    assert Refuted(cfg, s, at, c, s.checks) <==> Exec(cfg, at, instr, s).verdict.Fail? by {
      assert Ordinal(s, at, Checks(cfg, s, instr), 0) == s.checks;
    }
    assert Exec(cfg, at, instr, s).verdict.Pass? <==> Proved(cfg, s, at, c, s.checks);
  }

  // ------------------------------------------------------------ programs

  lemma {:induction false} RunThree(cfg: Config, s: ScanState, a: Site, b: Site, c: Site)
    requires var t := Exec(cfg, a.at, a.instr, s); var u := Exec(cfg, b.at, b.instr, t);
      !s.verdict.Fail? && !t.verdict.Fail? && !u.verdict.Fail?
    ensures var u := Exec(cfg, b.at, b.instr, Exec(cfg, a.at, a.instr, s));
      RunSites(cfg, [a, b, c], s) == Exec(cfg, c.at, c.instr, u)
  {
    hide Exec;
    var t := Exec(cfg, a.at, a.instr, s);
    var u := Exec(cfg, b.at, b.instr, t);
    assert [a, b, c][1..] == [b, c] && [b, c][1..] == [c] && [c][1..] == [];
    assert RunSites(cfg, [c], u) == RunSites(cfg, [], Exec(cfg, c.at, c.instr, u));
  }

  /**
   Allocate, index, access: for every kind of block, every size, every index list and every access the
   scan follows, it fails exactly when the bytes do not lie in the block, by arithmetic on the constants.
   */
  lemma {:induction false} AllocateIndexTouch(cfg: Config, s: ScanState, src: Source, p: Name, ns: seq<U64>, q: Name, t: Touch,
                                              a: Loc, b: Loc, c: Loc)
    requires Inv(s) && Plainly(cfg, s) && Bytes(src) < 0x1_0000_0000_0000_0000 && OneSided(t) && q !in s.slotNames
    requires src.Dma? ==> !t.Fill? && !t.CopyTo? && !t.CopyFrom?
    requires Length(t, cfg.defs).Some?
    ensures var program := [Site(a, Allocation(src, p)), Site(b, GetElementPtr(Pointer(p), Indices(ns), q)), Site(c, TouchInstr(t, q))];
      var v := RunSites(cfg, program, s).verdict;
      && (v.Fail? <==> IndexBytes(ns) + Length(t, cfg.defs).value > Bytes(src))
      && (v.Pass? <==> IndexBytes(ns) + Length(t, cfg.defs).value <= Bytes(src))
  {
    hide Inv;
    hide Exec;
    hide Allocation;
    hide TouchInstr;
    hide Length;
    hide IndexBytes;
    hide Bytes;
    AllocationKnown(cfg, s, a, src, p);
    var t1 := Exec(cfg, a, Allocation(src, p), s);
    GepKnown(cfg, t1, b, p, ns, q);
    var t2 := Exec(cfg, b, GetElementPtr(Pointer(p), Indices(ns), q), t1);
    TouchDecided(cfg, t2, c, t, q);
    RunThree(cfg, s, Site(a, Allocation(src, p)), Site(b, GetElementPtr(Pointer(p), Indices(ns), q)), Site(c, TouchInstr(t, q)));
  }

  function Free(p: Name): Instr { Call(Direct("kfree"), [Pointer(p)], None) }

  lemma {:induction false} FreeKnown(cfg: Config, s: ScanState, at: Loc, p: Name)
    requires Inv(s) && Plainly(cfg, s) && p in s.ptrs && s.ptrs[p].KmallocPtr?
    ensures var t := Exec(cfg, at, Free(p), s);
      && Inv(t)
      && (if s.ptrs[p].id in s.freed then t.verdict.Fail? else t == s.(freed := s.freed + {s.ptrs[p].id}))
  {
    hide Inv;
    ExecStep(cfg, at, Free(p), s);
  }

  /** Allocate, free, access: whatever the sizes, an access the scan follows fails, and so does a second free. */
  lemma {:induction false} UseAfterFreeFails(cfg: Config, s: ScanState, src: Source, p: Name, t: Touch, a: Loc, b: Loc, c: Loc)
    requires Inv(s) && Plainly(cfg, s) && Bytes(src) < 0x1_0000_0000_0000_0000 && !src.Dma?
    requires OneSided(t) && !t.MapDma? && p !in s.slotNames
    ensures RunSites(cfg, [Site(a, Allocation(src, p)), Site(b, Free(p)), Site(c, TouchInstr(t, p))], s).verdict.Fail?
    ensures RunSites(cfg, [Site(a, Allocation(src, p)), Site(b, Free(p)), Site(c, Free(p))], s).verdict.Fail?
  {
    hide Inv;
    hide Exec;
    hide Allocation;
    hide TouchInstr;
    hide Free;
    hide Length;
    hide Bytes;
    AllocationKnown(cfg, s, a, src, p);
    var t1 := Exec(cfg, a, Allocation(src, p), s);
    FreeKnown(cfg, t1, b, p);
    var t2 := Exec(cfg, b, Free(p), t1);
    TouchDecided(cfg, t2, c, t, p);
    FreeKnown(cfg, t2, c, p);
    RunThree(cfg, s, Site(a, Allocation(src, p)), Site(b, Free(p)), Site(c, TouchInstr(t, p)));
    RunThree(cfg, s, Site(a, Allocation(src, p)), Site(b, Free(p)), Site(c, Free(p)));
  }

  // ------------------------------------------------------------ detours

  /** A pointer made an integer, moved up and down, and made a pointer again is the pointer moved by the difference. */
  lemma {:induction false} IntegerDetour(cfg: Config, s: ScanState, p: Name, i: Name, j: Name, k: Name, q: Name, up: U64, down: U64,
                                         commuted: bool, a: Loc)
    requires Inv(s) && Plainly(cfg, s) && p in s.ptrs && s.ptrs[p].KmallocPtr?
    ensures var sum := if commuted then Add(U64Operand(up), Local(i, IntegerType(64)), j)
                       else Add(Local(i, IntegerType(64)), U64Operand(up), j);
      var t1 := Exec(cfg, a, PtrToInt(Pointer(p), i), s);
      var t2 := Exec(cfg, a, sum, t1);
      var t3 := Exec(cfg, a, Sub(Local(j, IntegerType(64)), U64Operand(down), k), t2);
      var t4 := Exec(cfg, a, IntToPtr(Local(k, IntegerType(64)), q), t3);
      && t4.verdict.Pass? && t4.ptrs == s.ptrs[q := Moved(s.ptrs[p], up - down)]
  {
    hide Inv;
    hide Exec;
    MovedUp(cfg, s, p, i, j, up, commuted, a);
    var t1 := Exec(cfg, a, PtrToInt(Pointer(p), i), s);
    var t2 := Exec(cfg, a, if commuted then Add(U64Operand(up), Local(i, IntegerType(64)), j)
                           else Add(Local(i, IntegerType(64)), U64Operand(up), j), t1);
    MovedDown(cfg, t2, j, k, q, down, a);
  }

  lemma {:induction false} MovedUp(cfg: Config, s: ScanState, p: Name, i: Name, j: Name, up: U64, commuted: bool, a: Loc)
    requires s.verdict.Pass? && p in s.ptrs && s.ptrs[p].KmallocPtr?
    ensures var sum := if commuted then Add(U64Operand(up), Local(i, IntegerType(64)), j)
                       else Add(Local(i, IntegerType(64)), U64Operand(up), j);
      var t := Exec(cfg, a, sum, Exec(cfg, a, PtrToInt(Pointer(p), i), s));
      && t.verdict.Pass? && t.ptrs == s.ptrs
      && j in t.ints && t.ints[j] == PtrOffset(s.ptrs[p].id, s.ptrs[p].offset + up)
  {
  }

  lemma {:induction false} MovedDown(cfg: Config, s: ScanState, j: Name, k: Name, q: Name, down: U64, a: Loc)
    requires s.verdict.Pass? && j in s.ints && s.ints[j].PtrOffset?
    ensures var t := Exec(cfg, a, IntToPtr(Local(k, IntegerType(64)), q),
                          Exec(cfg, a, Sub(Local(j, IntegerType(64)), U64Operand(down), k), s));
      t.verdict.Pass? && t.ptrs == s.ptrs[q := KmallocPtr(s.ints[j].id, s.ints[j].offset - down)]
  {
  }

  /** A DMA pointer does not survive the detour: nothing is known about the result. */
  lemma {:induction false} DmaDetour(cfg: Config, s: ScanState, p: Name, i: Name, q: Name, a: Loc)
    requires Plainly(cfg, s) && p in s.ptrs && !s.ptrs[p].KmallocPtr?
    ensures var t := Exec(cfg, a, IntToPtr(Local(i, IntegerType(64)), q), Exec(cfg, a, PtrToInt(Pointer(p), i), s));
      t.verdict.Pass? && t.ptrs == s.ptrs[q := UnknownPtr]
  {
  }

  /** A pointer spilled to a slot and loaded back is the same pointer. */
  lemma {:induction false} SpillAndReload(cfg: Config, s: ScanState, p: Name, slot: Name, r: Name, ty: Type, a: Loc)
    requires p in s.ptrs && slot in s.slotNames && slot !in s.ptrs && slot != r
    ensures var t1 := Exec(cfg, a, Store(Pointer(slot), Pointer(p)), s);
      var t2 := Exec(cfg, a, Load(Pointer(slot), ty, r), t1);
      t1 == s.(slots := s.slots[slot := s.ptrs[p]]) && t2 == t1.(ptrs := s.ptrs[r := s.ptrs[p]])
  {
    hide SizeOf;
  }

  /** A `getelementptr` on a slot is one on the pointer spilled there. */
  lemma {:induction false} SlotAsBase(cfg: Config, s: ScanState, slot: Name, r: Name, ns: seq<U64>, q: Name, a: Loc)
    requires slot !in s.ptrs && slot in s.slots && r in s.ptrs && s.ptrs[r] == s.slots[slot]
    ensures Exec(cfg, a, GetElementPtr(Pointer(slot), Indices(ns), q), s)
         == Exec(cfg, a, GetElementPtr(Pointer(r), Indices(ns), q), s)
  {
    hide Delta;
  }
}
