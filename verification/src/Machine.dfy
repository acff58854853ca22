/**
 A machine that executes the instruction stream over absolute addresses. Registers hold values of
 one kind whether the program calls them pointers or integers, stack slots are memory cells, and
 every heap block knows its base, its size and whether it is still live. Addresses remember the
 block they were made from; a flat machine keeps the bare address and finds the block by it.
 */
module Machine {
  import opened Common
  import opened Types
  import opened TypeSize
  import opened Ir
  import opened Gep
  import opened Gate
  import opened Scan

  datatype Value = Address(block: nat, addr: int) | SlotAddress(slot: Name) | Junk

  datatype HeapBlock = HeapBlock(base: int, size: U64, live: bool)

  datatype Fault = OutOfBoundsFault | UseAfterFreeFault | DoubleFreeFault

  datatype State = State(
    regs: map<Name, Value>, cells: map<Name, Value>, heap: seq<HeapBlock>, brk: int, fault: Option<Fault>, flat: bool)

  const START: State := State(map[], map[], [], 0, None, false)

  function Eval(m: State, op: Operand): Value {
    if op.Local? && op.name in m.regs then m.regs[op.name] else Junk
  }

  function Define(m: State, dest: Name, v: Value): State { m.(regs := m.regs[dest := v]) }

  function DefineResult(m: State, dest: Option<Name>, v: Value): State {
    if dest.Some? then Define(m, dest.value, v) else m
  }

  /** Blocks are laid out one after the other with a gap between them. */
  function New(m: State, size: U64, dest: Option<Name>): State {
    var block := HeapBlock(m.brk, size, true);
    DefineResult(m.(heap := m.heap + [block], brk := m.brk + size + 1), dest,
                 Address(if m.flat then 0 else |m.heap|, m.brk))
  }

  /** The block that holds the byte at `addr` or ends there. */
  function Find(heap: seq<HeapBlock>, addr: int): (r: Option<nat>)
    ensures r.Some? ==> r.value < |heap| && Covers(heap[r.value], addr)
    ensures r.None? ==> forall i :: 0 <= i < |heap| ==> !Covers(heap[i], addr)
  {
    if heap == [] then None else
    var k := |heap| - 1;
    if Covers(heap[k], addr) then Some(k) else Find(heap[..k], addr)
  }

  predicate Covers(b: HeapBlock, addr: int) { b.base <= addr <= b.base + b.size }

  /** The block an address belongs to: the one it was made from, or the one found in flat memory. */
  function BlockOf(m: State, v: Value): (r: Option<nat>)
    ensures r.Some? ==> r.value < |m.heap|
  {
    if !v.Address? then None
    else if m.flat then Find(m.heap, v.addr)
    else if v.block < |m.heap| then Some(v.block)
    else None
  }

  /** Reading or writing `len` bytes at `v`; only heap addresses can fault. */
  function Touch(m: State, v: Value, len: nat): State {
    match BlockOf(m, v)
    case None => if m.flat && v.Address? then m.(fault := Some(OutOfBoundsFault)) else m
    case Some(k) =>
      if !m.heap[k].live then m.(fault := Some(UseAfterFreeFault))
      else if v.addr < m.heap[k].base || v.addr + len > m.heap[k].base + m.heap[k].size
      then m.(fault := Some(OutOfBoundsFault))
      else m
  }

  function Release(m: State, v: Value): State {
    match BlockOf(m, v)
    case None => if m.flat && v.Address? then m.(fault := Some(OutOfBoundsFault)) else m
    case Some(k) =>
      if !m.heap[k].live then m.(fault := Some(DoubleFreeFault))
      else m.(heap := m.heap[k := m.heap[k].(live := false)])
  }

  /** Adding a constant to a value. */
  function Offset(v: Value, n: int): Value {
    if v.Address? then Address(v.block, v.addr + n) else Junk
  }

  function StepCall(m: State, callee: Callee, args: seq<Operand>, dest: Option<Name>): State {
    match CalleeName(callee)
    case None => DefineResult(m, dest, Junk)
    case Some(name) =>
      match RoutineNamed(name)
      case Kmalloc =>
        if |args| >= 1 && ConstU64(args[0]).Some? then New(m, ConstU64(args[0]).value, dest) else m
      case Kcalloc =>
        if |args| >= 2 && ConstU64(args[0]).Some? && ConstU64(args[1]).Some?
           && CheckedMul(ConstU64(args[0]).value, ConstU64(args[1]).value).Some?
        then New(m, CheckedMul(ConstU64(args[0]).value, ConstU64(args[1]).value).value, dest) else m
      case DmaAlloc =>
        if |args| >= 2 && ConstU64(args[1]).Some? then New(m, ConstU64(args[1]).value, dest) else m
      case Kfree =>
        DefineResult(if |args| >= 1 then Release(m, Eval(m, args[0])) else m, dest, Junk)
      case Memset =>
        DefineResult(
          if |args| >= 3 && ConstU64(args[2]).Some? then Touch(m, Eval(m, args[0]), ConstU64(args[2]).value) else m,
          dest, Junk)
      case Memcpy =>
        DefineResult(
          if |args| >= 3 && ConstU64(args[2]).Some? then
            var t := Touch(m, Eval(m, args[0]), ConstU64(args[2]).value);
            if t.fault.Some? then t else Touch(t, Eval(t, args[1]), ConstU64(args[2]).value)
          else m,
          dest, Junk)
      case _ => DefineResult(m, dest, Junk)
  }

  function StepAdd(m: State, op0: Operand, op1: Operand): Value {
    if ConstU64(op1).Some? then Offset(Eval(m, op0), ConstU64(op1).value)
    else if ConstU64(op0).Some? then Offset(Eval(m, op1), ConstU64(op0).value)
    else Junk
  }

  function StepSub(m: State, op0: Operand, op1: Operand): Value {
    if ConstU64(op1).Some? then Offset(Eval(m, op0), -(ConstU64(op1).value as int)) else Junk
  }

  function StepStore(m: State, address: Operand, value: Operand, defs: Defs): State
    requires Acyclic(defs)
  {
    var a := Eval(m, address);
    if a.SlotAddress? then m.(cells := m.cells[a.slot := Eval(m, value)])
    else
      match SizeOf(TypeOf(value), defs)
      case Some(n) => Touch(m, a, n)
      case None => m
  }

  function CellValue(m: State, slot: Name): Value { if slot in m.cells then m.cells[slot] else Junk }

  function StepLoad(m: State, address: Operand, ty: Type, dest: Name, defs: Defs): State
    requires Acyclic(defs)
  {
    var a := Eval(m, address);
    if a.SlotAddress? then Define(m, dest, CellValue(m, a.slot))
    else
      match SizeOf(ty, defs)
      case Some(n) => Define(Touch(m, a, n), dest, Junk)
      case None => Define(m, dest, Junk)
  }

  /** Casts move a value unchanged; `getelementptr` moves it by the analyzer's byte rule. */
  function Step(m: State, instr: Instr, defs: Defs): State
    requires Acyclic(defs)
  {
    match instr
    case Alloca(slot) => Define(m, slot, SlotAddress(slot))
    case Call(callee, args, result) => StepCall(m, callee, args, result)
    case GetElementPtr(base, indices, dest) =>
      (match Delta(indices, 0, TypeOf(base), defs)
       case Some(d) => Define(m, dest, Offset(Eval(m, base), d))
       case None => Define(m, dest, Junk))
    case PtrToInt(op, dest) => Define(m, dest, Eval(m, op))
    case IntToPtr(op, dest) => Define(m, dest, Eval(m, op))
    case BitCast(op, dest) => Define(m, dest, Eval(m, op))
    case Add(op0, op1, dest) => Define(m, dest, StepAdd(m, op0, op1))
    case Sub(op0, op1, dest) => Define(m, dest, StepSub(m, op0, op1))
    case Store(address, value) => StepStore(m, address, value, defs)
    case Load(address, ty, dest) => StepLoad(m, address, ty, dest, defs)
    case OtherInstr => m
  }

  /** Executes the stream until the first fault. */
  function Run(m: State, sites: seq<Site>, defs: Defs): State
    requires Acyclic(defs)
    decreases |sites|
  {
    if sites == [] || m.fault.Some? then m else Run(Step(m, sites[0].instr, defs), sites[1..], defs)
  }

  // ------------------------------------------------------------ exact index products

  /** As `Step`, except that `getelementptr` moves by the exact index products. */
  function ExactStep(m: State, instr: Instr, defs: Defs): State
    requires Acyclic(defs)
  {
    match instr
    case GetElementPtr(base, indices, dest) =>
      (match ExactDelta(indices, 0, TypeOf(base), defs)
       case Some(d) => Define(m, dest, Offset(Eval(m, base), d))
       case None => Define(m, dest, Junk))
    case _ => Step(m, instr, defs)
  }

  function ExactRun(m: State, sites: seq<Site>, defs: Defs): State
    requires Acyclic(defs)
    decreases |sites|
  {
    if sites == [] || m.fault.Some? then m else ExactRun(ExactStep(m, sites[0].instr, defs), sites[1..], defs)
  }

  /** No index product of the stream reaches 2^64. */
  predicate NoSaturation(sites: seq<Site>, defs: Defs)
    requires Acyclic(defs)
  {
    forall i :: 0 <= i < |sites| && sites[i].instr.GetElementPtr? ==> ExactProducts(sites[i].instr, defs)
  }

  predicate ExactProducts(instr: Instr, defs: Defs)
    requires Acyclic(defs) && instr.GetElementPtr?
  {
    Delta(instr.indices, 0, TypeOf(instr.base), defs) == ExactDelta(instr.indices, 0, TypeOf(instr.base), defs)
  }

  lemma {:induction false} ExactRunSame(m: State, sites: seq<Site>, defs: Defs)
    requires Acyclic(defs) && NoSaturation(sites, defs)
    ensures ExactRun(m, sites, defs) == Run(m, sites, defs)
    decreases |sites|
  {
    hide Delta;
    hide ExactDelta;
    hide StepCall;
    if sites != [] {
      assert ExactStep(m, sites[0].instr, defs) == Step(m, sites[0].instr, defs) by {
        assert sites[0].instr.GetElementPtr? ==> ExactProducts(sites[0].instr, defs);
      }
      hide Step;
      hide ExactStep;
      assert forall i :: 0 <= i < |sites[1..]| ==> sites[1..][i] == sites[i + 1];
      ExactRunSame(Step(m, sites[0].instr, defs), sites[1..], defs);
    }
  }
}
