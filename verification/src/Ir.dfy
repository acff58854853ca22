/** The part of an imported LLVM module that the analyzer reads. */
module Ir {
  import opened Common
  import opened Types

  datatype Name = Named(text: string) | Number(n: nat)

  datatype Constant = IntConst(bits: U32, value: U64) | GlobalRef(name: Name) | OtherConst

  /** A constant carries its type, as `type_of` would compute it. */
  datatype Operand = Local(name: Name, ty: Type) | Const(c: Constant, cty: Type) | Metadata

  datatype Callee = Asm(text: string) | Fn(target: Operand)

  datatype Instr =
    | Alloca(slot: Name)
    | Call(callee: Callee, args: seq<Operand>, result: Option<Name>)
    | GetElementPtr(base: Operand, indices: seq<Operand>, dest: Name)
    | PtrToInt(operand: Operand, dest: Name)
    | IntToPtr(operand: Operand, dest: Name)
    | Add(operand0: Operand, operand1: Operand, dest: Name)
    | Sub(operand0: Operand, operand1: Operand, dest: Name)
    | BitCast(operand: Operand, dest: Name)
    | Store(address: Operand, value: Operand)
    | Load(address: Operand, loadedTy: Type, dest: Name)
    | OtherInstr

  datatype Function = Function(name: string, blocks: seq<seq<Instr>>)

  datatype Module = Module(functions: seq<Function>, defs: Defs)

  /** `operand_const_u64` */
  function ConstU64(op: Operand): Option<U64> {
    if op.Const? && op.c.IntConst? then Some(op.c.value) else None
  }

  /** `Module::type_of` on an operand */
  function TypeOf(op: Operand): Type {
    match op
    case Local(_, ty) => ty
    case Const(_, ty) => ty
    case Metadata => MetadataType
  }

  /** `function_name_of_call`: only a direct call of a named global has a name. */
  function CalleeName(callee: Callee): Option<string> {
    if callee.Fn? && callee.target.Const? && callee.target.c.GlobalRef? && callee.target.c.name.Named?
    then Some(callee.target.c.name.text)
    else None
  }

  /** A direct call of the global function `name`. */
  predicate IsCallTo(instr: Instr, name: string) {
    && instr.Call? && instr.callee.Fn? && instr.callee.target.Const?
    && instr.callee.target.c == GlobalRef(Named(name))
  }

  /** The `i`-th argument of a call, if there is one. */
  function Arg(args: seq<Operand>, i: nat): Option<Operand> {
    if i < |args| then Some(args[i]) else None
  }

  /** The routines the analyzer gives a meaning to. */
  datatype Routine =
    Kmalloc | Kcalloc | Kfree | Memset | Memcpy | DmaAlloc | DmaMap | IommuMap | OtherRoutine

  function RoutineNamed(name: string): Routine {
    if name == "kmalloc" || name == "kzalloc" then Kmalloc
    else if name == "kcalloc" then Kcalloc
    else if name == "kfree" then Kfree
    else if name == "memset" then Memset
    else if name == "memcpy" || name == "__memcpy" then Memcpy
    else if name == "dma_alloc_coherent" then DmaAlloc
    else if name == "dma_map_single" then DmaMap
    else if name == "iommu_map" then IommuMap
    else OtherRoutine
  }

  /** The names behind each routine. */
  lemma RoutineByName(instr: Instr)
    requires instr.Call? && CalleeName(instr.callee).Some?
    ensures var r := RoutineNamed(CalleeName(instr.callee).value);
      && (r.Kmalloc? <==> IsCallTo(instr, "kmalloc") || IsCallTo(instr, "kzalloc"))
      && (r.Kcalloc? <==> IsCallTo(instr, "kcalloc"))
      && (r.Kfree? <==> IsCallTo(instr, "kfree"))
      && (r.Memset? <==> IsCallTo(instr, "memset"))
      && (r.Memcpy? <==> IsCallTo(instr, "memcpy") || IsCallTo(instr, "__memcpy"))
      && (r.DmaAlloc? <==> IsCallTo(instr, "dma_alloc_coherent"))
      && (r.DmaMap? <==> IsCallTo(instr, "dma_map_single"))
      && (r.IommuMap? <==> IsCallTo(instr, "iommu_map"))
  {
  }

  // ------------------------------------------------------------ inline assembly

  const SAFE_ASM: seq<string> := [
    "rdtsc", "rdtscp", "cpuid", "pause", "mfence", "sfence", "lfence", "cli", "sti",
    "nop", "rep nop", "ud2", "int3", "wbinvd", "invlpg", "xgetbv"
  ]

  /** Unicode White_Space, which `str::trim` removes. */
  predicate IsWhite(c: char) {
    var n := c as int;
    || 9 <= n <= 13 || n == 0x20 || n == 0x85 || n == 0xA0 || n == 0x1680
    || 0x2000 <= n <= 0x200A || n == 0x2028 || n == 0x2029 || n == 0x202F || n == 0x205F || n == 0x3000
  }

  function TrimStart(s: string): string {
    if s != [] && IsWhite(s[0]) then TrimStart(s[1..]) else s
  }

  function TrimEnd(s: string): string {
    if s != [] && IsWhite(s[|s| - 1]) then TrimEnd(s[..|s| - 1]) else s
  }

  function LowerChar(c: char): char {
    if 'A' <= c <= 'Z' then ((c as int) + 32) as char else c
  }

  /** `is_safe_inline_asm` */
  predicate IsSafeAsm(text: string) {
    var t := TrimEnd(TrimStart(text));
    var normalized := seq(|t|, i requires 0 <= i < |t| => LowerChar(t[i]));
    normalized == [] || exists p :: p in SAFE_ASM && p <= normalized
  }
}
