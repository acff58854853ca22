/**
 What an import of constants means: integer constants evaluate to the same number on the graph and
 after the import, and every constant the importer can produce is the import of some graph.
 */
module ConstMeaning {
  import opened Common
  import opened Types
  import opened Ir
  import opened ConstImport

  // ------------------------------------------------------------ integer arithmetic

  function Pow2(n: nat): nat { if n == 0 then 1 else 2 * Pow2(n - 1) }

  lemma {:induction false} Pow2Positive(n: nat)
    ensures Pow2(n) > 0
  {
    if n > 0 {
      Pow2Positive(n - 1);
    }
  }

  /** The low `width` bits. */
  function Low(n: int, width: nat): nat {
    Pow2Positive(width);
    n % Pow2(width)
  }

  /** Exclusive or of the low `width` bits. */
  function Xor(a: nat, b: nat, width: nat): nat {
    if width == 0 then 0 else (if a % 2 != b % 2 then 1 else 0) + 2 * Xor(a / 2, b / 2, width - 1)
  }

  /** An integer of a width. */
  datatype Num = Num(width: U32, value: nat)

  /** Two operands of one width under an operation. */
  function Combine(op: Opcode, a: Num, b: Num): Option<Num> {
    if a.width != b.width then None else
    match op
    case AddOp => Some(Num(a.width, Low(a.value + b.value, a.width)))
    case SubOp => Some(Num(a.width, Low(a.value - b.value, a.width)))
    case MulOp => Some(Num(a.width, Low(a.value * b.value, a.width)))
    case XorOp => Some(Num(a.width, Xor(a.value, b.value, a.width)))
    case _ => None
  }

  function Shorten(ty: Type, a: Num): Option<Num> {
    if ty.IntegerType? then Some(Num(ty.bits, Low(a.value, ty.bits))) else None
  }

  /** The number a value of the graph stands for, if it is integer arithmetic on integer constants. */
  ghost function GraphValue(g: Graph, rank: map<Ref, nat>, r: Ref): Option<Num>
    requires Ranked(g, rank) && r in g
    decreases rank[r]
  {
    match g[r].kind
    case IntKind(v) => if g[r].ty.IntegerType? then Some(Num(g[r].ty.bits, Low(v, g[r].ty.bits))) else None
    case ExprKind(op) =>
      if op.TruncOp? && |g[r].operands| == 1 then
        var a := GraphValue(g, rank, g[r].operands[0]);
        if a.Some? then Shorten(g[r].ty, a.value) else None
      else if |g[r].operands| == 2 then
        var a, b := GraphValue(g, rank, g[r].operands[0]), GraphValue(g, rank, g[r].operands[1]);
        if a.Some? && b.Some? then Combine(op, a.value, b.value) else None
      else None
    case _ => None
  }

  /** The number an imported constant stands for. */
  function Value(c: Imported): Option<Num> {
    match c
    case IntConstant(bits, v) => Some(Num(bits, Low(v, bits)))
    case Built(ExprShape(op, to), parts) =>
      if op.TruncOp? && |parts| == 1 && to.Some? then
        var a := Value(parts[0]);
        if a.Some? then Shorten(to.value, a.value) else None
      else if |parts| == 2 then
        var a, b := Value(parts[0]), Value(parts[1]);
        if a.Some? && b.Some? then Combine(op, a.value, b.value) else None
      else None
    case _ => None
  }

  /** An import has the value of the graph. */
  lemma {:induction false} ImportKeepsValue(ctx: Context, g: Graph, rank: map<Ref, nat>, r: Ref)
    requires Ranked(g, rank) && r in g && Parse(ctx, g, rank, r).Some?
    ensures Value(Parse(ctx, g, rank, r).value) == GraphValue(g, rank, r)
    decreases rank[r]
  {
    hide Low;
    hide Combine;
    hide Shorten;
    var ops := g[r].operands;
    match g[r].kind
    case ExprKind(op) =>
      forall i | 0 <= i < |ops| && Parse(ctx, g, rank, ops[i]).Some?
        ensures Value(Parse(ctx, g, rank, ops[i]).value) == GraphValue(g, rank, ops[i])
      {
        ImportKeepsValue(ctx, g, rank, ops[i]);
      }
    case _ =>
  }

  // ------------------------------------------------------------ which constants come out

  predicate IsBinary(op: Opcode) { op.AddOp? || op.SubOp? || op.MulOp? || op.XorOp? || op.ExtractElementOp? }

  predicate IsCast(op: Opcode) {
    op.TruncOp? || op.PtrToIntOp? || op.IntToPtrOp? || op.BitCastOp? || op.AddrSpaceCastOp?
  }

  /** A shape with `n` parts that the importer can build. */
  predicate ShapeOk(shape: Shape, n: nat) {
    match shape
    case StructShape(_) => true
    case ArrayShape(_) => n < 0x1_0000_0000_0000_0000
    case VectorShape => true
    case ExprShape(op, to) =>
      || (IsBinary(op) && to.None? && n == 2)
      || (op.InsertElementOp? && to.None? && n == 3)
      || (op.GetElementPtrOp? && to.None? && n >= 1)
      || (IsCast(op) && to.Some? && n == 1)
    case PtrAuthShape => n == 4
  }

  predicate Importable(c: Imported) {
    match c
    case FloatConstant(kind, number) => number.Some? <==> kind.Single? || kind.Double?
    case Built(shape, parts) => ShapeOk(shape, |parts|) && forall i :: 0 <= i < |parts| ==> Importable(parts[i])
    case _ => true
  }

  // ------------------------------------------------------------ writing a constant as a graph

  /** Values by number, each referring only to values before it, and the names of the globals among them. */
  datatype Written = Written(nodes: seq<Node>, globals: map<Ref, Name>)

  function Push(st: Written, n: Node): Written { st.(nodes := st.nodes + [n]) }

  function VoidTypes(n: nat): seq<Type> { seq(n, _ => VoidType) }

  /** A node of a shape over its parts; of the parts of a struct or array only the number matters. */
  function NodeFor(shape: Shape, roots: seq<Ref>): Node
    requires ShapeOk(shape, |roots|)
  {
    match shape
    case StructShape(p) => Node(StructKind, StructType(VoidTypes(|roots|), p), roots)
    case ArrayShape(e) => Node(ArrayKind, ArrayType(e, |roots|), roots)
    case VectorShape => Node(VectorKind, VoidType, roots)
    case ExprShape(op, to) => Node(ExprKind(op), if to.Some? then to.value else VoidType, roots)
    case PtrAuthShape => Node(PtrAuthKind, PointerType(0), roots)
  }

  /** Appends the nodes of a constant, its own last. */
  function Write(c: Imported, st: Written): (later: Written)
    requires Importable(c)
    ensures later.nodes != []
    decreases c, 1
  {
    match c
    case IntConstant(bits, v) => Push(st, Node(IntKind(v), IntegerType(bits), []))
    case FloatConstant(kind, number) => Push(st, Node(FloatKind(if number.Some? then number.value else 0.0), FPType(kind), []))
    case NullConstant(ty) => Push(st, Node(NullKind, ty, []))
    case ZeroConstant(ty) => Push(st, Node(ZeroKind, ty, []))
    case UndefConstant(ty) => Push(st, Node(UndefKind, ty, []))
    case PoisonConstant(ty) => Push(st, Node(PoisonKind, ty, []))
    case TokenNone => Push(st, Node(TokenNoneKind, TokenType, []))
    case BlockAddress => Push(st, Node(BlockAddressKind, PointerType(0), []))
    case GlobalReference(name, ty) =>
      Push(st, Node(GlobalKind, ty, [])).(globals := st.globals[|st.nodes| := name])
    case Built(shape, parts) =>
      var (later, roots) := WriteAll(parts, st);
      Push(later, NodeFor(shape, roots))
  }

  function WriteAll(cs: seq<Imported>, st: Written): (r: (Written, seq<Ref>))
    requires forall i :: 0 <= i < |cs| ==> Importable(cs[i])
    ensures |r.1| == |cs|
    decreases cs, 0
  {
    if cs == [] then (st, []) else
    var a := Write(cs[0], st);
    assert forall i :: 0 <= i < |cs[1..]| ==> cs[1..][i] == cs[i + 1];
    var (b, roots) := WriteAll(cs[1..], a);
    (b, [|a.nodes| - 1] + roots)
  }

  function GraphOf(nodes: seq<Node>): Graph { map i: Ref | 0 <= i < |nodes| :: nodes[i] }

  function Numbers(nodes: seq<Node>): map<Ref, nat> { map i | i in GraphOf(nodes) :: i }

  predicate Back(st: Written) {
    && (forall r :: 0 <= r < |st.nodes| ==> forall i :: 0 <= i < |st.nodes[r].operands| ==> st.nodes[r].operands[i] < r)
    && (forall r :: r in st.globals ==> r < |st.nodes|)
  }

  lemma RankedWritten(st: Written)
    requires Back(st)
    ensures Ranked(GraphOf(st.nodes), Numbers(st.nodes))
  {
  }

  function Ctx(defs: Defs, st: Written): Context { Context(defs, st.globals) }

  /** What value `r` of the store is imported as. */
  ghost function Reads(defs: Defs, st: Written, r: Ref): Option<Imported>
    requires Back(st) && r < |st.nodes|
  {
    RankedWritten(st);
    Parse(Ctx(defs, st), GraphOf(st.nodes), Numbers(st.nodes), r)
  }

  ghost predicate Extends(st: Written, later: Written) {
    && st.nodes <= later.nodes
    && forall r :: 0 <= r < |st.nodes| ==>
         (r in st.globals <==> r in later.globals) && (r in st.globals ==> later.globals[r] == st.globals[r])
  }

  lemma SamePlan(defs: Defs, st: Written, later: Written, r: Ref)
    requires Extends(st, later) && r < |st.nodes|
    ensures PlanFor(Ctx(defs, st), r, st.nodes[r]) == PlanFor(Ctx(defs, later), r, later.nodes[r])
  {
  }

  lemma {:induction false} StillReads(defs: Defs, st: Written, later: Written, r: Ref)
    requires Back(st) && Back(later) && Extends(st, later) && r < |st.nodes|
    ensures Reads(defs, later, r) == Reads(defs, st, r)
    decreases r
  {
    hide PlanFor;
    SamePlan(defs, st, later, r);
    RankedWritten(st);
    RankedWritten(later);
    var g, h := GraphOf(st.nodes), GraphOf(later.nodes);
    assert g[r] == st.nodes[r] == h[r];
    if PlanFor(Ctx(defs, st), r, g[r]).NeedsParts? {
      PartsAreOperands(Ctx(defs, st), r, g[r]);
      var ops := g[r].operands;
      forall i | 0 <= i < |ops| ensures Reads(defs, later, ops[i]) == Reads(defs, st, ops[i]) {
        StillReads(defs, st, later, ops[i]);
      }
      if Reads(defs, st, r).Some? {
        ParseOf(Ctx(defs, later), h, Numbers(later.nodes), r, Reads(defs, st, r).value.parts);
      }
    }
  }

  lemma PushBack(st: Written, n: Node)
    requires Back(st) && forall i :: 0 <= i < |n.operands| ==> n.operands[i] < |st.nodes|
    ensures Back(Push(st, n)) && Extends(st, Push(st, n))
  {
  }

  lemma ExtendsAgain(a: Written, b: Written, c: Written)
    requires Extends(a, b) && Extends(b, c)
    ensures Extends(a, c)
  {
  }

  /** What writing achieves. */
  ghost predicate WrittenOk(defs: Defs, st: Written, later: Written, c: Imported) {
    Back(later) && Extends(st, later) && later.nodes != [] && Reads(defs, later, |later.nodes| - 1) == Some(c)
  }

  lemma {:induction false} WriteReads(defs: Defs, c: Imported, st: Written)
    requires Importable(c) && Back(st)
    ensures WrittenOk(defs, st, Write(c, st), c)
    decreases c, 1
  {
    if c.Built? {
      WriteBuilt(defs, c, st);
    } else if c.GlobalReference? {
      WriteGlobal(defs, c, st);
    } else {
      WriteLeaf(defs, c, st);
    }
  }

  /** A node without operands, put last, reads as what it is planned to be. */
  lemma {:induction false} LastReads(defs: Defs, st: Written, later: Written, n: Node, c: Imported)
    requires Back(later) && later.nodes == st.nodes + [n]
    requires PlanFor(Ctx(defs, later), |st.nodes|, n) == Finished(c)
    ensures Reads(defs, later, |st.nodes|) == Some(c)
  {
    hide PlanFor;
    RankedWritten(later);
    assert GraphOf(later.nodes)[|st.nodes|] == n;
  }

  lemma {:induction false} WriteLeaf(defs: Defs, c: Imported, st: Written)
    requires Importable(c) && Back(st) && !c.Built? && !c.GlobalReference?
    ensures WrittenOk(defs, st, Write(c, st), c)
  {
    hide Reads;
    var later := Write(c, st);
    var n := later.nodes[|st.nodes|];
    PushBack(st, n);
    assert later == Push(st, n);
    LastReads(defs, st, later, n, c);
  }

  lemma {:induction false} WriteGlobal(defs: Defs, c: Imported, st: Written)
    requires Back(st) && c.GlobalReference?
    ensures WrittenOk(defs, st, Write(c, st), c)
  {
    hide Reads;
    var later, n := Write(c, st), Node(GlobalKind, c.ty, []);
    PushBack(st, n);
    LastReads(defs, st, later, n, c);
  }

  lemma {:induction false} WriteAllReads(defs: Defs, cs: seq<Imported>, st: Written)
    requires (forall i :: 0 <= i < |cs| ==> Importable(cs[i])) && Back(st)
    ensures var (later, roots) := WriteAll(cs, st);
      && Back(later) && Extends(st, later) && |roots| == |cs|
      && forall i :: 0 <= i < |cs| ==> roots[i] < |later.nodes| && Reads(defs, later, roots[i]) == Some(cs[i])
    decreases cs, 0
  {
    hide Write;
    hide Reads;
    if cs != [] {
      WriteReads(defs, cs[0], st);
      var a := Write(cs[0], st);
      assert forall i :: 0 <= i < |cs[1..]| ==> cs[1..][i] == cs[i + 1];
      WriteAllReads(defs, cs[1..], a);
      var (b, roots) := WriteAll(cs[1..], a);
      ExtendsAgain(st, a, b);
      StillReads(defs, a, b, |a.nodes| - 1);
      assert forall i :: 1 <= i < |cs| ==> cs[i] == cs[1..][i - 1];
    }
  }

  /** The node of a shape is planned as that shape. */
  lemma PlanOfShape(ctx: Context, r: Ref, shape: Shape, roots: seq<Ref>)
    requires ShapeOk(shape, |roots|)
    ensures PlanFor(ctx, r, NodeFor(shape, roots)) == NeedsParts(shape, |roots|)
  {
  }

  lemma {:induction false} WriteBuilt(defs: Defs, c: Imported, st: Written)
    requires Importable(c) && Back(st) && c.Built?
    ensures WrittenOk(defs, st, Write(c, st), c)
    decreases c, 0
  {
    hide Reads;
    hide NodeFor;
    hide ShapeOk;
    var (b, roots) := WriteAll(c.parts, st);
    WriteAllReads(defs, c.parts, st);
    hide WriteAll;
    hide Back;
    PushShape(defs, b, c.shape, roots, c.parts);
    ExtendsAgain(st, b, Push(b, NodeFor(c.shape, roots)));
  }

  lemma {:induction false} PushShape(defs: Defs, b: Written, shape: Shape, roots: seq<Ref>, parts: seq<Imported>)
    requires Back(b) && ShapeOk(shape, |roots|) && |roots| == |parts|
    requires forall i :: 0 <= i < |parts| ==> roots[i] < |b.nodes| && Reads(defs, b, roots[i]) == Some(parts[i])
    ensures var later := Push(b, NodeFor(shape, roots));
      Back(later) && Extends(b, later) && Reads(defs, later, |b.nodes|) == Some(Built(shape, parts))
  {
    hide PlanFor;
    var n, r := NodeFor(shape, roots), |b.nodes|;
    var later := Push(b, n);
    PushBack(b, n);
    PlanOfShape(Ctx(defs, later), r, shape, roots);
    RankedWritten(later);
    var g := GraphOf(later.nodes);
    assert g[r] == n && n.operands == roots;
    forall i | 0 <= i < |roots| ensures Reads(defs, later, roots[i]) == Some(parts[i]) {
      StillReads(defs, b, later, roots[i]);
    }
    ParseOf(Ctx(defs, later), g, Numbers(later.nodes), r, parts);
  }

  // ------------------------------------------------------------ which graphs give a constant

  /** The struct type a type stands for: itself, or what its name is defined as. */
  predicate StandsFor(defs: Defs, ty: Type, st: Type) {
    || ty == st
    || (ty.NamedStructType? && ty.name in defs && defs[ty.name] == Defined(st))
  }

  /** A value with `n` operands that is put together as `shape`. */
  ghost predicate IsShape(defs: Defs, node: Node, shape: Shape, n: nat) {
    && |node.operands| == n
    && match shape
       case StructShape(p) =>
         && node.kind == StructKind
         && exists elems: seq<Type> :: |elems| == n && StandsFor(defs, node.ty, StructType(elems, p))
       case ArrayShape(e) =>
         n < 0x1_0000_0000_0000_0000 && node.kind in {ArrayKind, DataArrayKind} && node.ty == ArrayType(e, n)
       case VectorShape =>
         node.kind == VectorKind || (node.kind == DataVectorKind && node.ty.VectorType? && node.ty.lanes == n)
       case ExprShape(op, to) =>
         ShapeOk(shape, n) && node.kind == ExprKind(op) && (to == None || to == Some(node.ty))
       case PtrAuthShape => node.kind == PtrAuthKind && n == 4
  }

  /** Value `r` of the graph is the constant `c`, read off the constant. */
  ghost predicate Denotes(ctx: Context, g: Graph, r: Ref, c: Imported)
    decreases c
  {
    && r in g
    && match c
       case IntConstant(bits, v) => g[r].kind == IntKind(v) && g[r].ty == IntegerType(bits)
       case FloatConstant(kind, number) =>
         && Importable(c) && g[r].kind.FloatKind? && g[r].ty == FPType(kind)
         && (number.Some? ==> g[r].kind.number == number.value)
       case NullConstant(ty) => g[r].kind == NullKind && g[r].ty == ty
       case ZeroConstant(ty) => g[r].kind == ZeroKind && g[r].ty == ty
       case UndefConstant(ty) => g[r].kind == UndefKind && g[r].ty == ty
       case PoisonConstant(ty) => g[r].kind == PoisonKind && g[r].ty == ty
       case TokenNone => g[r].kind == TokenNoneKind
       case BlockAddress => g[r].kind == BlockAddressKind
       case GlobalReference(name, ty) =>
         g[r].kind == GlobalKind && g[r].ty == ty && r in ctx.globals && ctx.globals[r] == name
       case Built(shape, parts) =>
         && IsShape(ctx.defs, g[r], shape, |parts|)
         && forall i :: 0 <= i < |parts| ==> Denotes(ctx, g, g[r].operands[i], parts[i])
  }

  lemma {:induction false} ShapeIff(ctx: Context, r: Ref, node: Node, shape: Shape)
    ensures PlanFor(ctx, r, node) == NeedsParts(shape, |node.operands|) <==> IsShape(ctx.defs, node, shape, |node.operands|)
  {
    if PlanFor(ctx, r, node) == NeedsParts(shape, |node.operands|) && shape.StructShape? {
      var st := if node.ty.NamedStructType? then ctx.defs[node.ty.name].ty else node.ty;
      assert StandsFor(ctx.defs, node.ty, StructType(st.elems, shape.isPacked));
    }
  }

  lemma {:induction false} LeafIff(ctx: Context, g: Graph, r: Ref, c: Imported)
    requires r in g && !c.Built?
    ensures PlanFor(ctx, r, g[r]) == Finished(c) <==> Denotes(ctx, g, r, c)
  {
  }

  /** An import gives a constant exactly when the value is that constant, node by node. */
  lemma {:induction false} ImportIff(ctx: Context, g: Graph, rank: map<Ref, nat>, r: Ref, c: Imported)
    requires Ranked(g, rank) && r in g
    ensures Parse(ctx, g, rank, r) == Some(c) <==> Denotes(ctx, g, r, c)
    decreases c
  {
    if c.Built? {
      BuiltIff(ctx, g, rank, r, c);
    } else {
      LeafIff(ctx, g, r, c);
    }
  }

  lemma {:induction false} BuiltIff(ctx: Context, g: Graph, rank: map<Ref, nat>, r: Ref, c: Imported)
    requires Ranked(g, rank) && r in g && c.Built?
    ensures Parse(ctx, g, rank, r) == Some(c) <==> Denotes(ctx, g, r, c)
    decreases c, 0
  {
    ShapeIff(ctx, r, g[r], c.shape);
    hide PlanFor;
    hide IsShape;
    var ops := g[r].operands;
    if PlanFor(ctx, r, g[r]).NeedsParts? {
      PartsAreOperands(ctx, r, g[r]);
      forall i | 0 <= i < |ops| && i < |c.parts|
        ensures Parse(ctx, g, rank, ops[i]) == Some(c.parts[i]) <==> Denotes(ctx, g, ops[i], c.parts[i])
      {
        ImportIff(ctx, g, rank, ops[i], c.parts[i]);
      }
      if Denotes(ctx, g, r, c) {
        ParseOf(ctx, g, rank, r, c.parts);
      }
    }
  }

  // ------------------------------------------------------------ the round trip

  /**
   A constant is the import of some graph, whatever struct definitions there are, exactly when it is
   importable: arities, types of casts, and numbers of floats as the importer makes them.
   */
  lemma {:induction false} RoundTrip(defs: Defs, c: Imported) returns (ctx: Context, g: Graph, rank: map<Ref, nat>, r: Ref)
    requires Importable(c)
    ensures ctx.defs == defs && Ranked(g, rank) && r in g && Parse(ctx, g, rank, r) == Some(c)
  {
    var st := Written([], map[]);
    assert Back(st);
    WriteReads(defs, c, st);
    var w := Write(c, st);
    RankedWritten(w);
    ctx, g, rank, r := Ctx(defs, w), GraphOf(w.nodes), Numbers(w.nodes), |w.nodes| - 1;
  }

  lemma {:induction false} ImportIsImportable(ctx: Context, g: Graph, rank: map<Ref, nat>, r: Ref)
    requires Ranked(g, rank) && r in g && Parse(ctx, g, rank, r).Some?
    ensures Importable(Parse(ctx, g, rank, r).value)
    decreases rank[r]
  {
    PlanIsOk(ctx, r, g[r]);
    hide PlanFor;
    hide ShapeOk;
    if PlanFor(ctx, r, g[r]).NeedsParts? {
      PartsAreOperands(ctx, r, g[r]);
      var ops := g[r].operands;
      forall i | 0 <= i < |ops| ensures Importable(Parse(ctx, g, rank, ops[i]).value) {
        ImportIsImportable(ctx, g, rank, ops[i]);
      }
    }
  }

  lemma PlanIsOk(ctx: Context, r: Ref, n: Node)
    ensures PlanFor(ctx, r, n).NeedsParts? ==> ShapeOk(PlanFor(ctx, r, n).shape, |n.operands|)
    ensures PlanFor(ctx, r, n).Finished? ==> Importable(PlanFor(ctx, r, n).c)
  {
  }
}
