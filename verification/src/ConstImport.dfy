/**
 The importer of LLVM constants: a memoised parse of an acyclic graph, cut at references to
 globals, with the panics of the LLVM 19 build.
 */
module ConstImport {
  import opened Common
  import opened Types
  import opened Ir

  /** An `LLVMValueRef`. */
  type Ref = nat

  /** The opcodes of constant expressions; `OtherOp` is one the LLVM 19 build does not know. */
  datatype Opcode =
    | AddOp | SubOp | MulOp | XorOp
    | ExtractElementOp | InsertElementOp | ShuffleVectorOp
    | GetElementPtrOp(inBounds: bool)
    | TruncOp | PtrToIntOp | IntToPtrOp | BitCastOp | AddrSpaceCastOp
    | OtherOp

  /** `LLVMValueKind`; `OtherKind` is a value that is no known constant. */
  datatype Kind =
    | IntKind(value: U64)
    | FloatKind(number: real)
    | StructKind | ArrayKind | VectorKind | DataArrayKind | DataVectorKind
    | NullKind | ZeroKind | UndefKind | PoisonKind | TokenNoneKind | BlockAddressKind
    | ExprKind(op: Opcode)
    | PtrAuthKind
    | GlobalKind
    | OtherKind

  /** A value, its type (a global's value type) and its operands or elements. */
  datatype Node = Node(kind: Kind, ty: Type, operands: seq<Ref>)

  type Graph = map<Ref, Node>

  /** What else the importer looks at: struct definitions and the names of globals. */
  datatype Context = Context(defs: Defs, globals: map<Ref, Name>)

  /** How the parts of a constant are put together. */
  datatype Shape =
    | StructShape(isPacked: bool)
    | ArrayShape(elemTy: Type)
    | VectorShape
    | ExprShape(op: Opcode, toType: Option<Type>)
    | PtrAuthShape

  datatype Imported =
    | IntConstant(bits: U32, value: U64)
    | FloatConstant(kind: FpKind, number: Option<real>)
    | NullConstant(ty: Type)
    | ZeroConstant(ty: Type)
    | UndefConstant(ty: Type)
    | PoisonConstant(ty: Type)
    | TokenNone
    | BlockAddress
    | GlobalReference(name: Name, ty: Type)
    | Built(shape: Shape, parts: seq<Imported>)

  // ------------------------------------------------------------ one value

  /** What `parse_from_llvm_ref` does with a value: panic, finish at once, or import `n` operands. */
  datatype Plan = Panics | Finished(c: Imported) | NeedsParts(shape: Shape, n: nat)

  /** A plan for all operands, provided LLVM has as many as the type or opcode says. */
  function Parts(shape: Shape, n: nat, operands: seq<Ref>): Plan {
    if n == |operands| then NeedsParts(shape, n) else Panics
  }

  function StructPlan(ty: Type, operands: seq<Ref>): Plan {
    if ty.StructType? then Parts(StructShape(ty.isPacked), |ty.elems|, operands) else Panics
  }

  function ExprPlan(op: Opcode, node: Node): Plan {
    match op
    case AddOp => Parts(ExprShape(op, None), 2, node.operands)
    case SubOp => Parts(ExprShape(op, None), 2, node.operands)
    case MulOp => Parts(ExprShape(op, None), 2, node.operands)
    case XorOp => Parts(ExprShape(op, None), 2, node.operands)
    case ExtractElementOp => Parts(ExprShape(op, None), 2, node.operands)
    case InsertElementOp => Parts(ExprShape(op, None), 3, node.operands)
    case ShuffleVectorOp => Panics
    case GetElementPtrOp(_) => if node.operands == [] then Panics else NeedsParts(ExprShape(op, None), |node.operands|)
    case OtherOp => Panics
    case _ => Parts(ExprShape(op, Some(node.ty)), 1, node.operands)
  }

  function PlanFor(ctx: Context, r: Ref, node: Node): Plan {
    match node.kind
    case IntKind(v) => if node.ty.IntegerType? then Finished(IntConstant(node.ty.bits, v)) else Panics
    case FloatKind(x) =>
      if !node.ty.FPType? then Panics
      else Finished(FloatConstant(node.ty.kind, if node.ty.kind.Single? || node.ty.kind.Double? then Some(x) else None))
    case StructKind =>
      if !node.ty.NamedStructType? then StructPlan(node.ty, node.operands)
      else if node.ty.name in ctx.defs && ctx.defs[node.ty.name].Defined?
      then StructPlan(ctx.defs[node.ty.name].ty, node.operands)
      else Panics
    case ArrayKind =>
      if node.ty.ArrayType? then Parts(ArrayShape(node.ty.elem), node.ty.count, node.operands) else Panics
    case DataArrayKind =>
      if node.ty.ArrayType? then Parts(ArrayShape(node.ty.elem), node.ty.count, node.operands) else Panics
    case VectorKind => NeedsParts(VectorShape, |node.operands|)
    case DataVectorKind =>
      if node.ty.VectorType? then Parts(VectorShape, node.ty.lanes, node.operands) else Panics
    case NullKind => Finished(NullConstant(node.ty))
    case ZeroKind => Finished(ZeroConstant(node.ty))
    case UndefKind => Finished(UndefConstant(node.ty))
    case PoisonKind => Finished(PoisonConstant(node.ty))
    case TokenNoneKind => Finished(TokenNone)
    case BlockAddressKind => Finished(BlockAddress)
    case ExprKind(op) => ExprPlan(op, node)
    case PtrAuthKind => Parts(PtrAuthShape, 4, node.operands)
    case GlobalKind => if r in ctx.globals then Finished(GlobalReference(ctx.globals[r], node.ty)) else Panics
    case OtherKind => Panics
  }

  /** A plan that needs parts uses all the operands. */
  lemma PartsAreOperands(ctx: Context, r: Ref, node: Node)
    requires PlanFor(ctx, r, node).NeedsParts?
    ensures PlanFor(ctx, r, node).n == |node.operands| && !node.kind.GlobalKind?
  {
  }

  // ------------------------------------------------------------ the parse without memory

  /** Operands resolve, and a rank falls along every operand edge; what a global is made of is not an operand. */
  ghost predicate Ranked(g: Graph, rank: map<Ref, nat>) {
    && rank.Keys == g.Keys
    && forall r :: r in g && !g[r].kind.GlobalKind? ==>
         forall i :: 0 <= i < |g[r].operands| ==> g[r].operands[i] in g && rank[g[r].operands[i]] < rank[r]
  }

  /** The recursive parse; `None` is a panic. */
  ghost function Parse(ctx: Context, g: Graph, rank: map<Ref, nat>, r: Ref): Option<Imported>
    requires Ranked(g, rank) && r in g
    decreases rank[r]
  {
    match PlanFor(ctx, r, g[r])
    case Panics => None
    case Finished(c) => Some(c)
    case NeedsParts(shape, _) =>
      PartsAreOperands(ctx, r, g[r]);
      var ops := g[r].operands;
      if forall i :: 0 <= i < |ops| ==> Parse(ctx, g, rank, ops[i]).Some?
      then
        var parts := seq(|ops|, i requires 0 <= i < |ops| => Parse(ctx, g, rank, ops[i]));
        Some(Built(shape, Unwrap(parts)))
      else None
  }

  function Unwrap(parts: seq<Option<Imported>>): (r: seq<Imported>)
    requires forall i :: 0 <= i < |parts| ==> parts[i].Some?
    ensures |r| == |parts| && forall i :: 0 <= i < |r| ==> parts[i] == Some(r[i])
  {
    seq(|parts|, i requires 0 <= i < |parts| => parts[i].value)
  }

  /** The parts of a value whose operands are known. */
  lemma ParseOf(ctx: Context, g: Graph, rank: map<Ref, nat>, r: Ref, parts: seq<Imported>)
    requires Ranked(g, rank) && r in g && PlanFor(ctx, r, g[r]).NeedsParts? && |parts| == |g[r].operands|
    requires forall i :: 0 <= i < |parts| ==>
      g[r].operands[i] in g && Parse(ctx, g, rank, g[r].operands[i]) == Some(parts[i])
    ensures Parse(ctx, g, rank, r) == Some(Built(PlanFor(ctx, r, g[r]).shape, parts))
  {
    hide PlanFor;
    PartsAreOperands(ctx, r, g[r]);
    var ops := g[r].operands;
    var all := seq(|ops|, i requires 0 <= i < |ops| => Parse(ctx, g, rank, ops[i]));
    assert Unwrap(all) == parts;
  }

  /** The parse depends on the graph alone. */
  lemma {:induction false} RankDoesNotMatter(ctx: Context, g: Graph, rank: map<Ref, nat>, other: map<Ref, nat>, r: Ref)
    requires Ranked(g, rank) && Ranked(g, other) && r in g
    ensures Parse(ctx, g, rank, r) == Parse(ctx, g, other, r)
    decreases rank[r]
  {
    hide PlanFor;
    if PlanFor(ctx, r, g[r]).NeedsParts? {
      PartsAreOperands(ctx, r, g[r]);
      forall i | 0 <= i < |g[r].operands|
        ensures Parse(ctx, g, rank, g[r].operands[i]) == Parse(ctx, g, other, g[r].operands[i])
      {
        RankDoesNotMatter(ctx, g, rank, other, g[r].operands[i]);
      }
      if Parse(ctx, g, rank, r).Some? {
        ParseOf(ctx, g, other, r, Parse(ctx, g, rank, r).value.parts);
      }
    }
  }

  // ------------------------------------------------------------ which constants panic

  /** A chain of operands from a constant to one of its parts. */
  predicate IsChain(ctx: Context, g: Graph, chain: seq<Ref>) {
    && chain != []
    && (forall i :: 0 <= i < |chain| ==> chain[i] in g)
    && (forall i :: 0 <= i < |chain| - 1 ==>
          PlanFor(ctx, chain[i], g[chain[i]]).NeedsParts? && chain[i + 1] in g[chain[i]].operands)
  }

  ghost predicate PanicsAtEnd(ctx: Context, g: Graph, chain: seq<Ref>, r: Ref) {
    IsChain(ctx, g, chain) && chain[0] == r && PlanFor(ctx, chain[|chain| - 1], g[chain[|chain| - 1]]).Panics?
  }

  lemma {:induction false} FindPanic(ctx: Context, g: Graph, rank: map<Ref, nat>, r: Ref) returns (chain: seq<Ref>)
    requires Ranked(g, rank) && r in g && Parse(ctx, g, rank, r).None?
    ensures PanicsAtEnd(ctx, g, chain, r)
    decreases rank[r]
  {
    hide PlanFor;
    if PlanFor(ctx, r, g[r]).Panics? {
      chain := [r];
    } else {
      PartsAreOperands(ctx, r, g[r]);
      var i :| 0 <= i < |g[r].operands| && Parse(ctx, g, rank, g[r].operands[i]).None?;
      var rest := FindPanic(ctx, g, rank, g[r].operands[i]);
      chain := [r] + rest;
      assert forall j :: 1 <= j < |chain| ==> chain[j] == rest[j - 1];
    }
  }

  lemma {:induction false} PanicSpreads(ctx: Context, g: Graph, rank: map<Ref, nat>, chain: seq<Ref>, r: Ref)
    requires Ranked(g, rank) && r in g && PanicsAtEnd(ctx, g, chain, r)
    ensures Parse(ctx, g, rank, r).None?
    decreases |chain|
  {
    hide PlanFor;
    if |chain| > 1 {
      var rest := chain[1..];
      assert forall j :: 0 <= j < |rest| ==> rest[j] == chain[j + 1];
      PartsAreOperands(ctx, r, g[r]);
      var i :| 0 <= i < |g[r].operands| && g[r].operands[i] == chain[1];
      PanicSpreads(ctx, g, rank, rest, chain[1]);
    }
  }

  /** The parse panics exactly when a chain of operands leads to a value the importer cannot handle. */
  lemma {:induction false} PanicsIff(ctx: Context, g: Graph, rank: map<Ref, nat>, r: Ref)
    requires Ranked(g, rank) && r in g
    ensures Parse(ctx, g, rank, r).None? <==> exists chain :: PanicsAtEnd(ctx, g, chain, r)
  {
    hide PanicsAtEnd;
    if Parse(ctx, g, rank, r).None? {
      var chain := FindPanic(ctx, g, rank, r);
    }
    forall chain | PanicsAtEnd(ctx, g, chain, r) ensures Parse(ctx, g, rank, r).None? {
      PanicSpreads(ctx, g, rank, chain, r);
    }
  }

  // ------------------------------------------------------------ the importer

  class ConstantImporter {
    var constants: map<Ref, Imported>

    /** Whatever was imported earlier, every entry is the parse of its key. */
    ghost predicate Valid(ctx: Context, g: Graph, rank: map<Ref, nat>)
      reads this
    {
      Ranked(g, rank) && forall r :: r in constants ==> r in g && Parse(ctx, g, rank, r) == Some(constants[r])
    }

    constructor ()
      ensures constants == map[]
    {
      constants := map[];
    }

    /** The entry step after parsing; its precondition is the panic "This case should have been handled above". */
    method InsertVacant(r: Ref, c: Imported)
      requires r !in constants
      modifies this
      ensures constants == old(constants)[r := c]
    {
      constants := constants[r := c];
    }

    /** `Constant::from_llvm_ref`; `None` is a panic of the parse. */
    method FromRef(ctx: Context, g: Graph, ghost rank: map<Ref, nat>, r: Ref) returns (c: Option<Imported>)
      requires Valid(ctx, g, rank) && r in g
      modifies this
      ensures Valid(ctx, g, rank)
      ensures c == Parse(ctx, g, rank, r) && (c.Some? ==> r in constants)
      ensures forall x :: x in old(constants) ==> x in constants
      ensures forall x :: x in constants && x !in old(constants) ==> x in rank && rank[x] <= rank[r]
      decreases rank[r], 1
    {
      if r in constants {
        return Some(constants[r]);
      }
      c := ParseNode(ctx, g, rank, r);
      if c.Some? {
        InsertVacant(r, c.value);
      }
    }

    /** `parse_from_llvm_ref`: only constants of lower rank are entered on the way. */
    method ParseNode(ctx: Context, g: Graph, ghost rank: map<Ref, nat>, r: Ref) returns (c: Option<Imported>)
      requires Valid(ctx, g, rank) && r in g
      modifies this
      ensures Valid(ctx, g, rank)
      ensures c == Parse(ctx, g, rank, r)
      ensures forall x :: x in old(constants) ==> x in constants
      ensures forall x :: x in constants && x !in old(constants) ==> x in rank && rank[x] < rank[r]
      decreases rank[r], 0
    {
      hide PlanFor;
      var plan := PlanFor(ctx, r, g[r]);
      match plan
      case Panics => return None;
      case Finished(done) => return Some(done);
      case NeedsParts(shape, n) =>
        PartsAreOperands(ctx, r, g[r]);
        var ops, parts := g[r].operands, [];
        for i := 0 to n
          invariant Valid(ctx, g, rank)
          invariant |parts| == i && forall j :: 0 <= j < i ==> Parse(ctx, g, rank, ops[j]) == Some(parts[j])
          invariant forall x :: x in old(constants) ==> x in constants
          invariant forall x :: x in constants && x !in old(constants) ==> x in rank && rank[x] < rank[r]
        {
          var part := FromRef(ctx, g, rank, ops[i]);
          if part.None? {
            return None;
          }
          parts := parts + [part.value];
        }
        ParseOf(ctx, g, rank, r, parts);
        c := Some(Built(shape, parts));
    }
  }
}
