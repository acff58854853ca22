/**
 Every type, with every table of struct definitions it refers to, is the import of a graph: one node
 per constructor, one node per struct name.
 */
module TypeRoundTrip {
  import opened Common
  import opened Types
  import opened TypeImport

  /** Nodes by number; a node that is not a named struct refers only to nodes before it. */
  type Nodes = seq<Node>

  // ------------------------------------------------------------ writing a type as nodes

  /** The names a type uses are the given ones. */
  predicate Uses(ty: Type, names: seq<string>)
    decreases ty
  {
    match ty
    case FuncType(r, ps, _) => Uses(r, names) && forall i :: 0 <= i < |ps| ==> Uses(ps[i], names)
    case VectorType(e, _, _) => Uses(e, names)
    case ArrayType(e, _) => Uses(e, names)
    case StructType(es, _) => forall i :: 0 <= i < |es| ==> Uses(es[i], names)
    case NamedStructType(n) => n in names
    case _ => true
  }

  function IndexOf(names: seq<string>, n: string): (i: nat)
    requires n in names
    ensures i < |names| && names[i] == n
  {
    if names[0] == n then 0 else
    var i := IndexOf(names[1..], n);
    i + 1
  }

  datatype Written = Written(nodes: Nodes, root: Ref)
  datatype WrittenAll = WrittenAll(nodes: Nodes, roots: seq<Ref>)

  function Push(nodes: Nodes, n: Node): Written { Written(nodes + [n], |nodes|) }

  /** Appends the nodes of a type; named structs are the nodes numbered by `names`. */
  function Write(ty: Type, names: seq<string>, nodes: Nodes): Written
    requires Uses(ty, names)
    decreases ty, 1
  {
    match ty
    case VoidType => Push(nodes, VoidNode)
    case IntegerType(bits) => Push(nodes, IntNode(bits))
    case PointerType(a) => Push(nodes, PtrNode(a))
    case FPType(k) => Push(nodes, FpNode(k))
    case FuncType(r, ps, v) =>
      var a := Write(r, names, nodes);
      var b := WriteAll(ps, names, a.nodes);
      Push(b.nodes, FuncNode(a.root, b.roots, v))
    case VectorType(e, n, s) =>
      var a := Write(e, names, nodes);
      Push(a.nodes, VectorNode(a.root, n, s))
    case ArrayType(e, n) =>
      var a := Write(e, names, nodes);
      Push(a.nodes, ArrayNode(a.root, n))
    case StructType(es, p) =>
      var b := WriteAll(es, names, nodes);
      Push(b.nodes, StructNode("", false, b.roots, p))
    case NamedStructType(n) => Written(nodes, IndexOf(names, n))
    case X86MMXType => Push(nodes, MmxNode)
    case X86AMXType => Push(nodes, AmxNode)
    case MetadataType => Push(nodes, MetadataNode)
    case LabelType => Push(nodes, LabelNode)
    case TokenType => Push(nodes, TokenNode)
    case TargetExtType => Push(nodes, TargetExtNode)
  }

  function WriteAll(es: seq<Type>, names: seq<string>, nodes: Nodes): WrittenAll
    requires forall i :: 0 <= i < |es| ==> Uses(es[i], names)
    decreases es, 0
  {
    if es == [] then WrittenAll(nodes, []) else
    var a := Write(es[0], names, nodes);
    assert forall i :: 0 <= i < |es[1..]| ==> es[1..][i] == es[i + 1];
    var b := WriteAll(es[1..], names, a.nodes);
    WrittenAll(b.nodes, [a.root] + b.roots)
  }

  // ------------------------------------------------------------ what the nodes stand for

  /** Node `r` is written as `ty` is: same constructor, same numbers and flags, parts likewise; a named struct by its name. */
  predicate Shows(nodes: Nodes, r: Ref, ty: Type)
    decreases ty
  {
    r < |nodes| &&
    match ty
    case VoidType => nodes[r] == VoidNode
    case IntegerType(bits) => nodes[r] == IntNode(bits)
    case PointerType(a) => nodes[r] == PtrNode(a)
    case FPType(k) => nodes[r] == FpNode(k)
    case FuncType(res, ps, v) =>
      && nodes[r].FuncNode? && nodes[r].isVarArg == v && Shows(nodes, nodes[r].result, res)
      && |nodes[r].params| == |ps| && forall i :: 0 <= i < |ps| ==> Shows(nodes, nodes[r].params[i], ps[i])
    case VectorType(e, n, s) =>
      nodes[r].VectorNode? && nodes[r].lanes == n && nodes[r].scalable == s && Shows(nodes, nodes[r].vecElem, e)
    case ArrayType(e, n) => nodes[r].ArrayNode? && nodes[r].count == n && Shows(nodes, nodes[r].elem, e)
    case StructType(es, p) =>
      && nodes[r].StructNode? && nodes[r].name == "" && !nodes[r].isOpaque && nodes[r].isPacked == p
      && |nodes[r].elems| == |es| && forall i :: 0 <= i < |es| ==> Shows(nodes, nodes[r].elems[i], es[i])
    case NamedStructType(n) => IsNamed(nodes[r]) && nodes[r].name == n
    case X86MMXType => nodes[r] == MmxNode
    case X86AMXType => nodes[r] == AmxNode
    case MetadataType => nodes[r] == MetadataNode
    case LabelType => nodes[r] == LabelNode
    case TokenType => nodes[r] == TokenNode
    case TargetExtType => nodes[r] == TargetExtNode
  }

  /** `later` has the nodes of `nodes`, except that the first `k`, all named structs, may have got bodies. */
  predicate Extends(nodes: Nodes, later: Nodes, k: nat) {
    && k <= |nodes| <= |later|
    && (forall i :: 0 <= i < k ==> IsNamed(nodes[i]) && IsNamed(later[i]) && later[i].name == nodes[i].name)
    && (forall i :: k <= i < |nodes| ==> later[i] == nodes[i] && !IsNamed(nodes[i]))
  }

  lemma {:induction false} StillShows(nodes: Nodes, later: Nodes, k: nat, r: Ref, ty: Type)
    requires Extends(nodes, later, k) && Shows(nodes, r, ty)
    ensures Shows(later, r, ty)
    decreases ty
  {
    match ty
    case FuncType(res, ps, _) =>
      StillShows(nodes, later, k, nodes[r].result, res);
      forall i | 0 <= i < |ps| ensures Shows(later, nodes[r].params[i], ps[i]) {
        StillShows(nodes, later, k, nodes[r].params[i], ps[i]);
      }
    case VectorType(e, _, _) => StillShows(nodes, later, k, nodes[r].vecElem, e);
    case ArrayType(e, _) => StillShows(nodes, later, k, nodes[r].elem, e);
    case StructType(es, _) =>
      forall i | 0 <= i < |es| ensures Shows(later, nodes[r].elems[i], es[i]) {
        StillShows(nodes, later, k, nodes[r].elems[i], es[i]);
      }
    case _ =>
  }

  // ------------------------------------------------------------ graphs

  function GraphOf(nodes: Nodes): Graph { map i: Ref | 0 <= i < |nodes| :: nodes[i] }

  function Numbers(nodes: Nodes): map<Ref, nat> { map i | i in GraphOf(nodes) :: i }

  /** References of unnamed nodes point back; those of named structs point somewhere; unnamed structs have bodies. */
  predicate InOrder(nodes: Nodes) {
    && (forall r :: 0 <= r < |nodes| ==> forall i :: 0 <= i < |Children(nodes[r])| ==>
          Children(nodes[r])[i] < (if IsNamed(nodes[r]) then |nodes| else r))
    && (forall r :: 0 <= r < |nodes| ==> !Unsupported(nodes[r]))
  }

  lemma SoundGraph(nodes: Nodes)
    requires InOrder(nodes)
    ensures Sound(GraphOf(nodes), Numbers(nodes))
  {
    hide Children;
  }

  /** What is written is what is imported. */
  lemma {:induction false} ShownIsImported(nodes: Nodes, r: Ref, ty: Type)
    requires InOrder(nodes) && Shows(nodes, r, ty)
    ensures Sound(GraphOf(nodes), Numbers(nodes)) && TypeOf(GraphOf(nodes), Numbers(nodes), r) == ty
    decreases ty
  {
    SoundGraph(nodes);
    var g, rank := GraphOf(nodes), Numbers(nodes);
    assert g[r] == nodes[r];
    match ty
    case FuncType(res, ps, _) =>
      ShownIsImported(nodes, nodes[r].result, res);
      forall i | 0 <= i < |ps| ensures nodes[r].params[i] in g && TypeOf(g, rank, nodes[r].params[i]) == ps[i] {
        ShownIsImported(nodes, nodes[r].params[i], ps[i]);
      }
    case VectorType(e, _, _) => ShownIsImported(nodes, nodes[r].vecElem, e);
    case ArrayType(e, _) => ShownIsImported(nodes, nodes[r].elem, e);
    case StructType(es, _) =>
      assert Children(nodes[r]) == nodes[r].elems;
      forall i | 0 <= i < |es| ensures nodes[r].elems[i] in g && TypeOf(g, rank, nodes[r].elems[i]) == es[i] {
        ShownIsImported(nodes, nodes[r].elems[i], es[i]);
      }
    case _ =>
  }

  // ------------------------------------------------------------ writing keeps the order

  /** The first nodes are the named structs, and the only ones. */
  predicate Headed(names: seq<string>, nodes: Nodes) {
    && InOrder(nodes) && |names| <= |nodes|
    && (forall i :: 0 <= i < |names| ==> IsNamed(nodes[i]) && nodes[i].name == names[i])
    && (forall i :: |names| <= i < |nodes| ==> !IsNamed(nodes[i]))
  }

  lemma PushKeepsOrder(names: seq<string>, nodes: Nodes, n: Node)
    requires Headed(names, nodes) && !IsNamed(n) && !Unsupported(n)
    requires forall i :: 0 <= i < |Children(n)| ==> Children(n)[i] < |nodes|
    ensures Headed(names, nodes + [n]) && Extends(nodes, nodes + [n], |names|)
  {
    hide Children;
  }

  lemma ExtendsAgain(a: Nodes, b: Nodes, c: Nodes, k: nat)
    requires Extends(a, b, k) && Extends(b, c, k)
    ensures Extends(a, c, k)
  {
  }

  lemma {:induction false} WriteShows(ty: Type, names: seq<string>, nodes: Nodes)
    requires Uses(ty, names) && Headed(names, nodes)
    ensures var w := Write(ty, names, nodes);
      && Headed(names, w.nodes) && Extends(nodes, w.nodes, |names|)
      && w.root < |w.nodes| && Shows(w.nodes, w.root, ty)
    decreases ty, 1
  {
    hide Headed;
    hide Extends;
    match ty
    case FuncType(_, _, _) => WriteFunc(ty, names, nodes);
    case VectorType(e, n, s) =>
      WriteShows(e, names, nodes);
      var a := Write(e, names, nodes);
      PushPart(names, nodes, a.nodes, a.root, e, VectorNode(a.root, n, s));
    case ArrayType(e, n) =>
      WriteShows(e, names, nodes);
      var a := Write(e, names, nodes);
      PushPart(names, nodes, a.nodes, a.root, e, ArrayNode(a.root, n));
    case StructType(_, _) => WriteStruct(ty, names, nodes);
    case NamedStructType(n) => NamedShown(names, nodes, n);
    case _ => PushLeaf(ty, names, nodes);
  }

  lemma NamedShown(names: seq<string>, nodes: Nodes, n: string)
    requires Headed(names, nodes) && n in names
    ensures Extends(nodes, nodes, |names|) && IndexOf(names, n) < |nodes| && Shows(nodes, IndexOf(names, n), NamedStructType(n))
  {
  }

  lemma PushLeaf(ty: Type, names: seq<string>, nodes: Nodes)
    requires Headed(names, nodes)
    requires !ty.FuncType? && !ty.VectorType? && !ty.ArrayType? && !ty.StructType? && !ty.NamedStructType?
    ensures var w := Write(ty, names, nodes);
      Headed(names, w.nodes) && Extends(nodes, w.nodes, |names|) && w.root < |w.nodes| && Shows(w.nodes, w.root, ty)
  {
    var w := Write(ty, names, nodes);
    var n := w.nodes[|nodes|];
    assert w.nodes == nodes + [n];
    PushKeepsOrder(names, nodes, n);
    hide Headed;
    hide Extends;
  }

  /** One more node on top of a written part. */
  lemma PushPart(names: seq<string>, nodes: Nodes, later: Nodes, part: Ref, e: Type, n: Node)
    requires Headed(names, later) && Extends(nodes, later, |names|) && part < |later| && Shows(later, part, e)
    requires (n.VectorNode? && n.vecElem == part) || (n.ArrayNode? && n.elem == part)
    ensures Headed(names, later + [n]) && Extends(nodes, later + [n], |names|) && Shows(later + [n], part, e)
  {
    assert Children(n) == [part];
    PushKeepsOrder(names, later, n);
    ExtendsAgain(nodes, later, later + [n], |names|);
    StillShows(later, later + [n], |names|, part, e);
  }

  ghost predicate ShowsAll(nodes: Nodes, rs: seq<Ref>, es: seq<Type>) {
    |rs| == |es| && forall i :: 0 <= i < |es| ==> rs[i] < |nodes| && Shows(nodes, rs[i], es[i])
  }

  lemma StillShowsAll(nodes: Nodes, later: Nodes, k: nat, rs: seq<Ref>, es: seq<Type>)
    requires Extends(nodes, later, k) && ShowsAll(nodes, rs, es)
    ensures ShowsAll(later, rs, es)
  {
    hide Shows;
    forall i | 0 <= i < |es| ensures Shows(later, rs[i], es[i]) {
      StillShows(nodes, later, k, rs[i], es[i]);
    }
  }

  lemma {:induction false} WriteAllShows(es: seq<Type>, names: seq<string>, nodes: Nodes)
    requires (forall i :: 0 <= i < |es| ==> Uses(es[i], names)) && Headed(names, nodes)
    ensures var w := WriteAll(es, names, nodes);
      Headed(names, w.nodes) && Extends(nodes, w.nodes, |names|) && ShowsAll(w.nodes, w.roots, es)
    decreases es, 0
  {
    hide Write;
    hide Shows;
    if es == [] {
      assert Extends(nodes, nodes, |names|);
    } else {
      WriteShows(es[0], names, nodes);
      var a := Write(es[0], names, nodes);
      assert forall i :: 0 <= i < |es[1..]| ==> es[1..][i] == es[i + 1];
      WriteAllShows(es[1..], names, a.nodes);
      var b := WriteAll(es[1..], names, a.nodes);
      ExtendsAgain(nodes, a.nodes, b.nodes, |names|);
      StillShows(a.nodes, b.nodes, |names|, a.root, es[0]);
      hide Headed;
      hide Extends;
      LaterIsLonger(a.nodes, b.nodes, |names|);
      assert forall i :: 1 <= i < |es| ==> ([a.root] + b.roots)[i] == b.roots[i - 1] && es[i] == es[1..][i - 1];
    }
  }

  lemma LaterIsLonger(nodes: Nodes, later: Nodes, k: nat)
    requires Extends(nodes, later, k)
    ensures |nodes| <= |later|
  {
  }

  lemma {:induction false} WriteStruct(ty: Type, names: seq<string>, nodes: Nodes)
    requires ty.StructType? && Uses(ty, names) && Headed(names, nodes)
    ensures var w := Write(ty, names, nodes);
      Headed(names, w.nodes) && Extends(nodes, w.nodes, |names|) && w.root < |w.nodes| && Shows(w.nodes, w.root, ty)
    decreases ty, 0
  {
    WriteAllShows(ty.elems, names, nodes);
    var b := WriteAll(ty.elems, names, nodes);
    var n := StructNode("", false, b.roots, ty.isPacked);
    assert Children(n) == b.roots;
    PushKeepsOrder(names, b.nodes, n);
    ExtendsAgain(nodes, b.nodes, b.nodes + [n], |names|);
    StillShowsAll(b.nodes, b.nodes + [n], |names|, b.roots, ty.elems);
    hide Headed;
    hide Extends;
  }

  lemma {:induction false} WriteFunc(ty: Type, names: seq<string>, nodes: Nodes)
    requires ty.FuncType? && Uses(ty, names) && Headed(names, nodes)
    ensures var w := Write(ty, names, nodes);
      Headed(names, w.nodes) && Extends(nodes, w.nodes, |names|) && w.root < |w.nodes| && Shows(w.nodes, w.root, ty)
    decreases ty, 0
  {
    WriteShows(ty.result, names, nodes);
    var a := Write(ty.result, names, nodes);
    WriteAllShows(ty.params, names, a.nodes);
    var b := WriteAll(ty.params, names, a.nodes);
    var n := FuncNode(a.root, b.roots, ty.isVarArg);
    assert Children(n) == [a.root] + b.roots;
    LaterIsLonger(a.nodes, b.nodes, |names|);
    PushKeepsOrder(names, b.nodes, n);
    ExtendsAgain(nodes, a.nodes, b.nodes, |names|);
    ExtendsAgain(nodes, b.nodes, b.nodes + [n], |names|);
    ExtendsAgain(a.nodes, b.nodes, b.nodes + [n], |names|);
    StillShows(a.nodes, b.nodes + [n], |names|, a.root, ty.result);
    StillShowsAll(b.nodes, b.nodes + [n], |names|, b.roots, ty.params);
    hide Headed;
    hide Extends;
  }

  // ------------------------------------------------------------ struct definitions

  /** A table: distinct names, each opaque or defined as a struct over the names of the table. */
  predicate IsTable(names: seq<string>, bodies: seq<StructDef>) {
    && |names| == |bodies|
    && (forall i :: 0 <= i < |names| ==> names[i] != "")
    && (forall i, j :: 0 <= i < j < |names| ==> names[i] != names[j])
    && (forall i :: 0 <= i < |bodies| && bodies[i].Defined? ==> bodies[i].ty.StructType? && Uses(bodies[i].ty, names))
  }

  function Placeholder(name: string): Node { StructNode(name, true, [], false) }

  /** One node per name, then the members of the first `k` bodies, each entered at its name. */
  function WriteTable(names: seq<string>, bodies: seq<StructDef>, k: nat): Nodes
    requires IsTable(names, bodies) && k <= |names|
  {
    if k == 0 then seq(|names|, i requires 0 <= i < |names| => Placeholder(names[i])) else
    var before := WriteTable(names, bodies, k - 1);
    match bodies[k - 1]
    case Opaque => before
    case Defined(ty) =>
      var w := WriteAll(ty.elems, names, before);
      if k - 1 < |w.nodes| then w.nodes[k - 1 := StructNode(names[k - 1], false, w.roots, ty.isPacked)] else w.nodes
  }

  ghost predicate ShowsBody(nodes: Nodes, i: nat, d: StructDef) {
    && i < |nodes| && nodes[i].StructNode?
    && match d
       case Opaque => nodes[i].isOpaque
       case Defined(ty) =>
         ty.StructType? && !nodes[i].isOpaque && nodes[i].isPacked == ty.isPacked && ShowsAll(nodes, nodes[i].elems, ty.elems)
  }

  lemma {:induction false} StillShowsBody(nodes: Nodes, later: Nodes, k: nat, i: nat, d: StructDef)
    requires Extends(nodes, later, k) && ShowsBody(nodes, i, d) && later[i] == nodes[i]
    ensures ShowsBody(later, i, d)
  {
    hide Extends;
    if d.Defined? {
      StillShowsAll(nodes, later, k, nodes[i].elems, d.ty.elems);
    }
    LaterIsLonger(nodes, later, k);
  }

  /** Entering a body at its name. */
  lemma {:induction false} EnterBody(names: seq<string>, nodes: Nodes, i: nat, roots: seq<Ref>, es: seq<Type>, p: bool)
    requires Headed(names, nodes) && i < |names| && ShowsAll(nodes, roots, es)
    ensures var later := nodes[i := StructNode(names[i], false, roots, p)];
      Headed(names, later) && Extends(nodes, later, |names|) && ShowsBody(later, i, Defined(StructType(es, p)))
  {
    hide Shows;
    var n := StructNode(names[i], false, roots, p);
    var later := nodes[i := n];
    assert Children(n) == roots;
    assert Headed(names, later) by {
      hide Children;
    }
    assert Extends(nodes, later, |names|);
    StillShowsAll(nodes, later, |names|, roots, es);
  }

  /** The written members leave the named nodes as they were. */
  lemma {:induction false} WriteAllAppends(es: seq<Type>, names: seq<string>, nodes: Nodes)
    requires forall i :: 0 <= i < |es| ==> Uses(es[i], names)
    ensures nodes <= WriteAll(es, names, nodes).nodes
    decreases es, 0
  {
    hide Write;
    if es != [] {
      WriteAppends(es[0], names, nodes);
      assert forall i :: 0 <= i < |es[1..]| ==> es[1..][i] == es[i + 1];
      WriteAllAppends(es[1..], names, Write(es[0], names, nodes).nodes);
    }
  }

  lemma {:induction false} WriteAppends(ty: Type, names: seq<string>, nodes: Nodes)
    requires Uses(ty, names)
    ensures nodes <= Write(ty, names, nodes).nodes
    decreases ty, 1
  {
    match ty
    case FuncType(r, ps, _) =>
      WriteAppends(r, names, nodes);
      WriteAllAppends(ps, names, Write(r, names, nodes).nodes);
    case VectorType(e, _, _) => WriteAppends(e, names, nodes);
    case ArrayType(e, _) => WriteAppends(e, names, nodes);
    case StructType(es, _) => WriteAllAppends(es, names, nodes);
    case _ =>
  }

  ghost predicate TableShown(names: seq<string>, bodies: seq<StructDef>, k: nat, nodes: Nodes)
    requires k <= |names| == |bodies|
  {
    && Headed(names, nodes)
    && (forall i :: 0 <= i < k ==> ShowsBody(nodes, i, bodies[i]))
    && (forall i :: k <= i < |names| ==> nodes[i] == Placeholder(names[i]))
  }

  lemma {:induction false} OneMoreBody(names: seq<string>, bodies: seq<StructDef>, k: nat, before: Nodes, ty: Type)
    requires IsTable(names, bodies) && k < |names| && bodies[k] == Defined(ty) && TableShown(names, bodies, k, before)
    ensures var w := WriteAll(ty.elems, names, before);
      && k < |w.nodes|
      && TableShown(names, bodies, k + 1, w.nodes[k := StructNode(names[k], false, w.roots, ty.isPacked)])
  {
    hide Shows;
    var w := WriteAll(ty.elems, names, before);
    WriteAllShows(ty.elems, names, before);
    WriteAllAppends(ty.elems, names, before);
    EnterBody(names, w.nodes, k, w.roots, ty.elems, ty.isPacked);
    var later := w.nodes[k := StructNode(names[k], false, w.roots, ty.isPacked)];
    ExtendsAgain(before, w.nodes, later, |names|);
    assert forall i :: 0 <= i < |names| && i != k ==> later[i] == before[i];
    hide WriteAll;
    hide ShowsAll;
    hide Extends;
    forall i | 0 <= i < k ensures ShowsBody(later, i, bodies[i]) {
      StillShowsBody(before, later, |names|, i, bodies[i]);
    }
  }

  lemma {:induction false} TableShows(names: seq<string>, bodies: seq<StructDef>, k: nat)
    requires IsTable(names, bodies) && k <= |names|
    ensures TableShown(names, bodies, k, WriteTable(names, bodies, k))
  {
    if k > 0 {
      TableShows(names, bodies, k - 1);
      if bodies[k - 1].Defined? {
        hide TableShown;
        OneMoreBody(names, bodies, k - 1, WriteTable(names, bodies, k - 1), bodies[k - 1].ty);
      }
    }
  }

  // ------------------------------------------------------------ the round trip

  lemma NothingUnsupported(nodes: Nodes, r: Ref)
    requires InOrder(nodes)
    ensures !ReachesUnsupported(GraphOf(nodes), r)
  {
    hide Children;
  }

  lemma {:induction false} BodyIsImported(nodes: Nodes, i: Ref, d: StructDef)
    requires InOrder(nodes) && ShowsBody(nodes, i, d) && IsNamed(nodes[i])
    ensures Sound(GraphOf(nodes), Numbers(nodes)) && DefOf(GraphOf(nodes), Numbers(nodes), i) == d
  {
    SoundGraph(nodes);
    hide TypeOf;
    hide Shows;
    var g, rank := GraphOf(nodes), Numbers(nodes);
    assert g[i] == nodes[i];
    if d.Defined? {
      var rs := nodes[i].elems;
      assert Children(g[i]) == rs;
      forall k | 0 <= k < |rs| ensures rs[k] in g && TypeOf(g, rank, rs[k]) == d.ty.elems[k] {
        ShownIsImported(nodes, rs[k], d.ty.elems[k]);
      }
      assert TypesOf(g, rank, rs) == d.ty.elems;
    }
  }

  /**
   For every table of struct definitions and every type over its names there is a graph with unique
   names and nothing unsupported whose root is imported as that type and whose named structs are
   imported as those definitions.
   */
  lemma {:induction false} RoundTrip(names: seq<string>, bodies: seq<StructDef>, ty: Type) returns (g: Graph, rank: map<Ref, nat>, r: Ref)
    requires IsTable(names, bodies) && Uses(ty, names)
    ensures Sound(g, rank) && UniqueNames(g) && r in g && !ReachesUnsupported(g, r)
    ensures TypeOf(g, rank, r) == ty
    ensures forall n :: n in Names(g) <==> n in names
    ensures forall i :: 0 <= i < |names| ==>
      i in g && IsNamed(g[i]) && g[i].name == names[i] && DefOf(g, rank, i) == bodies[i]
  {
    var before := WriteTable(names, bodies, |names|);
    TableShows(names, bodies, |names|);
    WriteShows(ty, names, before);
    WriteAppends(ty, names, before);
    var w := Write(ty, names, before);
    g, rank, r := GraphOf(w.nodes), Numbers(w.nodes), w.root;
    hide WriteTable;
    hide Write;
    hide TypeOf;
    hide DefOf;
    hide ShowsBody;
    hide Shows;
    hide Uses;
    ShownIsImported(w.nodes, r, ty);
    NothingUnsupported(w.nodes, r);
    forall i | 0 <= i < |names| ensures DefOf(g, rank, i) == bodies[i] {
      assert w.nodes[i] == before[i];
      StillShowsBody(before, w.nodes, |names|, i, bodies[i]);
      BodyIsImported(w.nodes, i, bodies[i]);
    }
    NamesAreTheTable(names, w.nodes);
  }

  lemma {:induction false} NamesAreTheTable(names: seq<string>, nodes: Nodes)
    requires Headed(names, nodes)
    ensures forall n :: n in Names(GraphOf(nodes)) <==> n in names
  {
    var g := GraphOf(nodes);
    forall n | n in names ensures n in Names(g) {
      var i := IndexOf(names, n);
      assert g[i] == nodes[i];
    }
  }

  /** Importing the graph of a type gives the type back, and every definition it enters is the table's. */
  lemma {:induction false} ImportedTable(names: seq<string>, bodies: seq<StructDef>, g: Graph, rank: map<Ref, nat>,
                                         defs: map<string, StructDef>, refs: map<Ref, Type>, i: nat)
    requires IsTable(names, bodies) && Consistent(g, rank, {}, defs.Keys, defs, refs) && UniqueNames(g) && i < |names|
    requires i in g && IsNamed(g[i]) && g[i].name == names[i] && DefOf(g, rank, i) == bodies[i]
    ensures names[i] in defs ==> defs[names[i]] == bodies[i]
  {
    hide TypeOf;
    hide Explored;
    if names[i] in defs {
      assert HasDef(g, rank, names[i], defs[names[i]]);
    }
  }
}
