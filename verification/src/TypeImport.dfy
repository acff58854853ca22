/**
 The importer of LLVM types: a memoising traversal of a type graph that may be cyclic, filling
 interning caches and the table of named struct definitions.
 */
module TypeImport {
  import opened Common
  import opened Types

  // ------------------------------------------------------------ type graphs

  /** An `LLVMTypeRef`. */
  type Ref = nat

  datatype Node =
    | VoidNode
    | IntNode(bits: U32)
    | PtrNode(addrSpace: U32)
    | FpNode(kind: FpKind)
    | ArrayNode(elem: Ref, count: U64)
    | VectorNode(vecElem: Ref, lanes: U64, scalable: bool)
    | StructNode(name: string, isOpaque: bool, elems: seq<Ref>, isPacked: bool)  // literal structs have the empty name
    | FuncNode(result: Ref, params: seq<Ref>, isVarArg: bool)
    | MmxNode | AmxNode | MetadataNode | LabelNode | TokenNode | TargetExtNode

  type Graph = map<Ref, Node>

  predicate IsNamed(n: Node) { n.StructNode? && n.name != "" }

  function Children(n: Node): seq<Ref> {
    match n
    case ArrayNode(e, _) => [e]
    case VectorNode(e, _, _) => [e]
    case StructNode(_, isOpaque, es, _) => if isOpaque then [] else es
    case FuncNode(r, ps, _) => [r] + ps
    case _ => []
  }

  /** References resolve. */
  predicate WellFormed(g: Graph) {
    forall r :: r in g ==> forall i :: 0 <= i < |Children(g[r])| ==> Children(g[r])[i] in g
  }

  /** LLVM gives no two struct types of a context the same name. */
  predicate UniqueNames(g: Graph) {
    forall a, b :: a in g && b in g && IsNamed(g[a]) && IsNamed(g[b]) && g[a].name == g[b].name ==> a == b
  }

  /** A rank that falls along every edge that does not leave a named struct: every cycle passes through one. */
  ghost predicate Ranked(g: Graph, rank: map<Ref, nat>) {
    && rank.Keys == g.Keys
    && forall r :: r in g && !IsNamed(g[r]) ==>
         forall i :: 0 <= i < |Children(g[r])| ==> Children(g[r])[i] in rank && rank[Children(g[r])[i]] < rank[r]
  }

  ghost predicate Sound(g: Graph, rank: map<Ref, nat>) { WellFormed(g) && Ranked(g, rank) }

  function Names(g: Graph): set<string> { set r | r in g && IsNamed(g[r]) :: g[r].name }

  /** The type a reference denotes: its unfolding, cut at named structs. */
  ghost function TypeOf(g: Graph, rank: map<Ref, nat>, r: Ref): Type
    requires Sound(g, rank) && r in g
    decreases rank[r]
  {
    match g[r]
    case VoidNode => VoidType
    case IntNode(bits) => IntegerType(bits)
    case PtrNode(a) => PointerType(a)
    case FpNode(k) => FPType(k)
    case ArrayNode(e, n) => assert Children(g[r])[0] == e; ArrayType(TypeOf(g, rank, e), n)
    case VectorNode(e, n, s) => assert Children(g[r])[0] == e; VectorType(TypeOf(g, rank, e), n, s)
    case StructNode(name, _, _, packed) =>
      if IsNamed(g[r]) then NamedStructType(name)
      else
        var ms := Children(g[r]);
        StructType(seq(|ms|, i requires 0 <= i < |ms| => TypeOf(g, rank, ms[i])), packed)
    case FuncNode(res, ps, v) =>
      assert Children(g[r])[0] == res;
      assert forall i :: 0 <= i < |ps| ==> Children(g[r])[i + 1] == ps[i];
      FuncType(TypeOf(g, rank, res), seq(|ps|, i requires 0 <= i < |ps| => TypeOf(g, rank, ps[i])), v)
    case MmxNode => X86MMXType
    case AmxNode => X86AMXType
    case MetadataNode => MetadataType
    case LabelNode => LabelType
    case TokenNode => TokenType
    case TargetExtNode => TargetExtType
  }

  ghost function TypesOf(g: Graph, rank: map<Ref, nat>, rs: seq<Ref>): seq<Type>
    requires Sound(g, rank) && forall i :: 0 <= i < |rs| ==> rs[i] in g
  {
    seq(|rs|, i requires 0 <= i < |rs| => TypeOf(g, rank, rs[i]))
  }

  /** The definition a named struct should get. */
  ghost function DefOf(g: Graph, rank: map<Ref, nat>, r: Ref): StructDef
    requires Sound(g, rank) && r in g && IsNamed(g[r])
  {
    if g[r].isOpaque then Opaque else Defined(StructType(TypesOf(g, rank, Children(g[r])), g[r].isPacked))
  }

  /** The denotation depends on the graph alone, not on the rank that shows it is well-founded. */
  lemma {:induction false} RankDoesNotMatter(g: Graph, rank: map<Ref, nat>, other: map<Ref, nat>, r: Ref)
    requires Sound(g, rank) && Sound(g, other) && r in g
    ensures TypeOf(g, rank, r) == TypeOf(g, other, r)
    decreases rank[r]
  {
    if !IsNamed(g[r]) {
      forall i | 0 <= i < |Children(g[r])|
        ensures TypeOf(g, rank, Children(g[r])[i]) == TypeOf(g, other, Children(g[r])[i])
      {
        RankDoesNotMatter(g, rank, other, Children(g[r])[i]);
      }
      match g[r]
      case ArrayNode(e, _) => assert Children(g[r])[0] == e;
      case VectorNode(e, _, _) => assert Children(g[r])[0] == e;
      case FuncNode(res, ps, _) =>
        assert Children(g[r])[0] == res;
        assert forall i :: 0 <= i < |ps| ==> Children(g[r])[i + 1] == ps[i];
      case _ =>
    }
  }

  // ------------------------------------------------------------ the panic

  /** The struct `struct_type_from_llvm_ref` panics on: opaque and without a name. */
  predicate Unsupported(n: Node) { n.StructNode? && n.isOpaque && n.name == "" }

  predicate IsPath(g: Graph, path: seq<Ref>) {
    && path != []
    && (forall i :: 0 <= i < |path| ==> path[i] in g)
    && (forall i :: 0 <= i < |path| - 1 ==> path[i + 1] in Children(g[path[i]]))
  }

  predicate LeadsToUnsupported(g: Graph, path: seq<Ref>, r: Ref) {
    IsPath(g, path) && path[0] == r && Unsupported(g[path[|path| - 1]])
  }

  /** An unnamed opaque struct is part of the type, through named structs as well. */
  ghost predicate ReachesUnsupported(g: Graph, r: Ref) { exists path :: LeadsToUnsupported(g, path, r) }

  lemma ReachesItself(g: Graph, r: Ref)
    requires r in g && Unsupported(g[r])
    ensures ReachesUnsupported(g, r)
  {
    assert LeadsToUnsupported(g, [r], r);
  }

  lemma {:induction false} ReachesThrough(g: Graph, r: Ref, child: Ref)
    requires r in g && child in Children(g[r]) && ReachesUnsupported(g, child)
    ensures ReachesUnsupported(g, r)
  {
    var path :| LeadsToUnsupported(g, path, child);
    assert forall i :: 1 <= i <= |path| ==> ([r] + path)[i] == path[i - 1];
    assert LeadsToUnsupported(g, [r] + path, r);
  }

  /** The smallest graph that panics: one numbered opaque struct. */
  lemma NumberedOpaqueStruct()
    ensures var g := map[0 := StructNode("", true, [], false)];
      Sound(g, map[0 := 0]) && UniqueNames(g) && ReachesUnsupported(g, 0)
  {
    ReachesItself(map[0 := StructNode("", true, [], false)], 0);
  }

  /** An imported reference: supported, its parts imported unless it is a named struct, its name registered if it is. */
  predicate Imported(g: Graph, named: set<string>, refs: map<Ref, Type>, r: Ref)
    requires r in g
  {
    && !Unsupported(g[r])
    && (if IsNamed(g[r]) then g[r].name in named
        else forall i :: 0 <= i < |Children(g[r])| ==> Children(g[r])[i] in refs)
  }

  /** Everything imported so far is supported, and only the members of structs on the stack may be missing. */
  ghost predicate Explored(g: Graph, named: set<string>, defs: map<string, StructDef>, refs: map<Ref, Type>) {
    && (forall r :: r in refs ==> r in g && Imported(g, named, refs, r))
    && (forall r :: r in g && IsNamed(g[r]) && g[r].name in defs ==>
          forall i :: 0 <= i < |Children(g[r])| ==> Children(g[r])[i] in refs)
  }

  /** Once no struct is pending, nothing unsupported can be reached from what was imported. */
  lemma {:induction false} ExploredIsClean(g: Graph, defs: map<string, StructDef>, refs: map<Ref, Type>, r: Ref)
    requires Explored(g, defs.Keys, defs, refs) && r in refs
    ensures !ReachesUnsupported(g, r)
  {
    forall path | LeadsToUnsupported(g, path, r) ensures false {
      PathStays(g, defs, refs, path, |path| - 1);
    }
  }

  lemma {:induction false} PathStays(g: Graph, defs: map<string, StructDef>, refs: map<Ref, Type>, path: seq<Ref>, k: nat)
    requires Explored(g, defs.Keys, defs, refs) && IsPath(g, path) && k < |path| && path[0] in refs
    ensures path[k] in refs
  {
    if k > 0 {
      PathStays(g, defs, refs, path, k - 1);
      var i :| 0 <= i < |Children(g[path[k - 1]])| && Children(g[path[k - 1]])[i] == path[k];
    }
  }

  // ------------------------------------------------------------ interning caches

  datatype FuncKey = FuncKey(result: Type, params: seq<Type>, isVarArg: bool)
  datatype VecKey = VecKey(elem: Type, lanes: U64, scalable: bool)
  datatype ArrKey = ArrKey(elem: Type, count: U64)
  datatype StructKey = StructKey(elems: seq<Type>, isPacked: bool)

  datatype Caches = Caches(
    ints: map<U32, Type>, ptrs: map<U32, Type>, fps: map<FpKind, Type>,
    funcs: map<FuncKey, Type>, vecs: map<VecKey, Type>, arrs: map<ArrKey, Type>,
    structs: map<StructKey, Type>, named: map<string, Type>)

  /** A cache holds, at each key, the constructor applied to that key. */
  ghost predicate Interns<K(!new)>(m: map<K, Type>, build: K -> Type) {
    forall k :: k in m ==> m[k] == build(k)
  }

  function BuildInt(k: U32): Type { IntegerType(k) }
  function BuildPtr(k: U32): Type { PointerType(k) }
  function BuildFp(k: FpKind): Type { FPType(k) }
  function BuildFunc(k: FuncKey): Type { FuncType(k.result, k.params, k.isVarArg) }
  function BuildVec(k: VecKey): Type { VectorType(k.elem, k.lanes, k.scalable) }
  function BuildArr(k: ArrKey): Type { ArrayType(k.elem, k.count) }
  function BuildStruct(k: StructKey): Type { StructType(k.elems, k.isPacked) }
  function BuildNamed(k: string): Type { NamedStructType(k) }

  ghost predicate CachesOk(c: Caches) {
    && Interns(c.ints, BuildInt) && Interns(c.ptrs, BuildPtr) && Interns(c.fps, BuildFp)
    && Interns(c.funcs, BuildFunc) && Interns(c.vecs, BuildVec) && Interns(c.arrs, BuildArr)
    && Interns(c.structs, BuildStruct) && Interns(c.named, BuildNamed)
  }

  /** `TypeCache::lookup_or_insert` */
  method LookupOrInsert<K(==,!new)>(m: map<K, Type>, k: K, build: K -> Type) returns (n: map<K, Type>, t: Type)
    requires Interns(m, build)
    ensures Interns(n, build) && t == build(k) && n.Keys == m.Keys + {k}
  {
    n := if k in m then m else m[k := build(k)];
    t := n[k];
  }

  /** `TypeCache::lookup` with the constructed type as a fallback. */
  function Lookup<K(==)>(m: map<K, Type>, k: K, built: Type): Type { if k in m then m[k] else built }

  /** `Types::get_for_type` */
  function GetForType(c: Caches, ty: Type): Type {
    match ty
    case IntegerType(b) => Lookup(c.ints, b, IntegerType(b))
    case PointerType(a) => Lookup(c.ptrs, a, PointerType(a))
    case FPType(k) => Lookup(c.fps, k, FPType(k))
    case FuncType(r, ps, v) => Lookup(c.funcs, FuncKey(r, ps, v), FuncType(r, ps, v))
    case VectorType(e, n, s) => Lookup(c.vecs, VecKey(e, n, s), VectorType(e, n, s))
    case ArrayType(e, n) => Lookup(c.arrs, ArrKey(e, n), ArrayType(e, n))
    case StructType(es, p) => Lookup(c.structs, StructKey(es, p), StructType(es, p))
    case NamedStructType(n) => Lookup(c.named, n, NamedStructType(n))
    case _ => ty
  }

  /** A looked-up type equals the type asked for, interned or not. */
  lemma GetForTypeIsIdentity(c: Caches, ty: Type)
    requires CachesOk(c)
    ensures GetForType(c, ty) == ty
  {
  }

  // ------------------------------------------------------------ the builder's invariant

  /** The definition of `n` is that of a struct of this name. */
  ghost predicate HasDef(g: Graph, rank: map<Ref, nat>, n: string, d: StructDef)
    requires Sound(g, rank)
  {
    exists r :: r in g && IsNamed(g[r]) && g[r].name == n && d == DefOf(g, rank, r)
  }

  /**
   `stack` holds the named structs whose definitions are being imported: the registered names are
   the defined ones and, disjoint from them, the ones on the stack.
   */
  ghost predicate Consistent(g: Graph, rank: map<Ref, nat>, stack: set<string>,
                             named: set<string>, defs: map<string, StructDef>, refs: map<Ref, Type>)
  {
    && Sound(g, rank)
    && named == defs.Keys + stack
    && defs.Keys !! stack
    && named <= Names(g)
    && (forall r :: r in refs ==> r in g && refs[r] == TypeOf(g, rank, r))
    && (forall n :: n in defs ==> HasDef(g, rank, n, defs[n]))
    && (UniqueNames(g) ==> Explored(g, named, defs, refs))
  }

  lemma DefineOpaque(g: Graph, rank: map<Ref, nat>, stack: set<string>, named: set<string>, defs: map<string, StructDef>, refs: map<Ref, Type>, r: Ref)
    requires Consistent(g, rank, stack, named, defs, refs)
    requires r in g && IsNamed(g[r]) && g[r].isOpaque && g[r].name !in named
    ensures g[r].name !in defs
    ensures Consistent(g, rank, stack, named + {g[r].name}, defs[g[r].name := Opaque], refs)
  {
    hide TypeOf;
    assert HasDef(g, rank, g[r].name, DefOf(g, rank, r));
    hide HasDef;
    if UniqueNames(g) {
      ExploreDefinition(g, named, defs, refs, r, Opaque);
    }
    hide Explored;
    NameListed(g, r);
  }

  /** A definition may be entered once its members are imported. */
  lemma ExploreDefinition(g: Graph, named: set<string>, defs: map<string, StructDef>, refs: map<Ref, Type>, r: Ref, d: StructDef)
    requires UniqueNames(g) && Explored(g, named, defs, refs) && r in g && IsNamed(g[r])
    requires forall i :: 0 <= i < |Children(g[r])| ==> Children(g[r])[i] in refs
    ensures Explored(g, named + {g[r].name}, defs[g[r].name := d], refs)
  {
    hide Children;
  }

  lemma ExploreName(g: Graph, named: set<string>, defs: map<string, StructDef>, refs: map<Ref, Type>, n: string)
    requires Explored(g, named, defs, refs)
    ensures Explored(g, named + {n}, defs, refs)
  {
    hide Children;
  }

  lemma EnterStruct(g: Graph, rank: map<Ref, nat>, stack: set<string>, named: set<string>, defs: map<string, StructDef>, refs: map<Ref, Type>, r: Ref)
    requires Consistent(g, rank, stack, named, defs, refs)
    requires r in g && IsNamed(g[r]) && g[r].name !in named
    ensures Consistent(g, rank, stack + {g[r].name}, named + {g[r].name}, defs, refs)
    ensures g[r].name !in stack
  {
    hide TypeOf;
    hide HasDef;
    NameListed(g, r);
    hide Names;
    hide WellFormed;
    hide Ranked;
    var n := g[r].name;
    if UniqueNames(g) {
      ExploreName(g, named, defs, refs, n);
    }
    hide Explored;
    hide UniqueNames;
    assert n !in defs.Keys && n !in stack;
    assert named + {n} == defs.Keys + (stack + {n});
  }

  lemma NameListed(g: Graph, r: Ref)
    requires r in g && IsNamed(g[r])
    ensures g[r].name in Names(g)
  {
  }

  lemma LeaveStruct(g: Graph, rank: map<Ref, nat>, stack: set<string>, named: set<string>, defs: map<string, StructDef>, refs: map<Ref, Type>, r: Ref)
    requires r in g && IsNamed(g[r]) && g[r].name !in stack
    requires Consistent(g, rank, stack + {g[r].name}, named, defs, refs)
    requires forall i :: 0 <= i < |Children(g[r])| ==> Children(g[r])[i] in refs
    ensures g[r].name !in defs
    ensures Consistent(g, rank, stack, named, defs[g[r].name := DefOf(g, rank, r)], refs)
  {
    hide TypeOf;
    assert HasDef(g, rank, g[r].name, DefOf(g, rank, r));
    hide HasDef;
    if UniqueNames(g) {
      ExploreDefinition(g, named, defs, refs, r, DefOf(g, rank, r));
      assert named + {g[r].name} == named;
    }
    hide Explored;
  }

  lemma InsertRef(g: Graph, rank: map<Ref, nat>, stack: set<string>, named: set<string>, defs: map<string, StructDef>, refs: map<Ref, Type>, r: Ref)
    requires Consistent(g, rank, stack, named, defs, refs) && r in g && Imported(g, named, refs, r)
    ensures Consistent(g, rank, stack, named, defs, refs[r := TypeOf(g, rank, r)])
  {
    hide TypeOf;
    hide HasDef;
    hide Names;
    hide WellFormed;
    hide Ranked;
    hide Children;
    hide UniqueNames;
  }

  /** How many names are still to be registered. */
  function Unregistered(g: Graph, named: set<string>): nat { |Names(g) - named| }

  lemma Fewer(g: Graph, a: set<string>, b: set<string>)
    requires a <= b
    ensures Unregistered(g, b) <= Unregistered(g, a)
  {
    Smaller(Names(g) - b, Names(g) - a);
  }

  lemma FewerStrict(g: Graph, a: set<string>, b: set<string>, n: string)
    requires a <= b && n in Names(g) && n !in a && n in b
    ensures Unregistered(g, b) < Unregistered(g, a)
  {
    Smaller(Names(g) - b, Names(g) - a - {n});
  }

  lemma {:induction false} Smaller(a: set<string>, b: set<string>)
    requires a <= b
    ensures |a| <= |b|
    decreases |a|
  {
    if a != {} {
      var x :| x in a;
      Smaller(a - {x}, b - {x});
    }
  }

  /** A bound above the ranks of some references. */
  ghost function Bound(rank: map<Ref, nat>, rs: seq<Ref>): (b: nat)
    requires forall i :: 0 <= i < |rs| ==> rs[i] in rank
    ensures forall i :: 0 <= i < |rs| ==> rank[rs[i]] < b
  {
    if rs == [] then 0 else
    var b := Bound(rank, rs[1..]);
    assert forall i :: 1 <= i < |rs| ==> rs[i] == rs[1..][i - 1];
    if rank[rs[0]] < b then b else rank[rs[0]] + 1
  }

  // ------------------------------------------------------------ the builder

  /** `TypesBuilder` */
  class TypesBuilder {
    var caches: Caches
    var defs: map<string, StructDef>
    var refs: map<Ref, Type>           // llvm_type_map

    ghost predicate Valid(g: Graph, rank: map<Ref, nat>, stack: set<string>)
      reads this
    {
      CachesOk(caches) && Consistent(g, rank, stack, caches.named.Keys, defs, refs)
    }

    constructor ()
      ensures forall g, rank :: Sound(g, rank) ==> Valid(g, rank, {})
      ensures caches.named == map[] && defs == map[] && refs == map[]
    {
      caches := Caches(map[], map[], map[], map[], map[], map[], map[], map[]);
      defs, refs := map[], map[];
    }

    method Int(bits: U32) returns (t: Type)
      requires CachesOk(caches)
      modifies this`caches
      ensures t == IntegerType(bits) && CachesOk(caches) && caches.named.Keys == old(caches.named.Keys)
    {
      hide Interns;
      var m, ty := LookupOrInsert(caches.ints, bits, BuildInt);
      caches, t := caches.(ints := m), ty;
    }

    method Pointer(a: U32) returns (t: Type)
      requires CachesOk(caches)
      modifies this`caches
      ensures t == PointerType(a) && CachesOk(caches) && caches.named.Keys == old(caches.named.Keys)
    {
      hide Interns;
      var m, ty := LookupOrInsert(caches.ptrs, a, BuildPtr);
      caches, t := caches.(ptrs := m), ty;
    }

    method Fp(k: FpKind) returns (t: Type)
      requires CachesOk(caches)
      modifies this`caches
      ensures t == FPType(k) && CachesOk(caches) && caches.named.Keys == old(caches.named.Keys)
    {
      hide Interns;
      var m, ty := LookupOrInsert(caches.fps, k, BuildFp);
      caches, t := caches.(fps := m), ty;
    }

    method Func(r: Type, ps: seq<Type>, v: bool) returns (t: Type)
      requires CachesOk(caches)
      modifies this`caches
      ensures t == FuncType(r, ps, v) && CachesOk(caches) && caches.named.Keys == old(caches.named.Keys)
    {
      hide Interns;
      var m, ty := LookupOrInsert(caches.funcs, FuncKey(r, ps, v), BuildFunc);
      caches, t := caches.(funcs := m), ty;
    }

    method Vector(e: Type, n: U64, s: bool) returns (t: Type)
      requires CachesOk(caches)
      modifies this`caches
      ensures t == VectorType(e, n, s) && CachesOk(caches) && caches.named.Keys == old(caches.named.Keys)
    {
      hide Interns;
      var m, ty := LookupOrInsert(caches.vecs, VecKey(e, n, s), BuildVec);
      caches, t := caches.(vecs := m), ty;
    }

    method Array(e: Type, n: U64) returns (t: Type)
      requires CachesOk(caches)
      modifies this`caches
      ensures t == ArrayType(e, n) && CachesOk(caches) && caches.named.Keys == old(caches.named.Keys)
    {
      hide Interns;
      var m, ty := LookupOrInsert(caches.arrs, ArrKey(e, n), BuildArr);
      caches, t := caches.(arrs := m), ty;
    }

    method Struct(es: seq<Type>, p: bool) returns (t: Type)
      requires CachesOk(caches)
      modifies this`caches
      ensures t == StructType(es, p) && CachesOk(caches) && caches.named.Keys == old(caches.named.Keys)
    {
      hide Interns;
      var m, ty := LookupOrInsert(caches.structs, StructKey(es, p), BuildStruct);
      caches, t := caches.(structs := m), ty;
    }

    method NamedStruct(n: string) returns (t: Type)
      requires CachesOk(caches)
      modifies this`caches
      ensures t == NamedStructType(n) && CachesOk(caches)
      ensures caches.named.Keys == old(caches.named.Keys) + {n}
    {
      hide Interns;
      var m, ty := LookupOrInsert(caches.named, n, BuildNamed);
      caches, t := caches.(named := m), ty;
    }

    /** `add_named_struct_def`; its precondition is the panic "Trying to redefine named struct". */
    method AddNamedStructDef(n: string, d: StructDef)
      requires n !in defs
      modifies this`defs
      ensures defs == old(defs)[n := d]
    {
      defs := defs[n := d];
    }

    /** `type_from_llvm_ref`; `None` is a panic. */
    method TypeFromRef(g: Graph, ghost rank: map<Ref, nat>, ghost stack: set<string>, r: Ref) returns (t: Option<Type>)
      requires Sound(g, rank) && Valid(g, rank, stack) && r in g
      modifies this
      ensures t.None? ==> ReachesUnsupported(g, r)
      ensures t.Some? ==> t.value == TypeOf(g, rank, r) && r in refs
      ensures t.Some? ==> Valid(g, rank, stack)
      ensures t.Some? ==> old(caches.named.Keys) <= caches.named.Keys
      ensures t.Some? ==> forall x :: x in old(refs) ==> x in refs
      decreases Unregistered(g, caches.named.Keys), rank[r], 2
    {
      hide CachesOk;
      hide Names;
      hide Unregistered;
      hide ReachesUnsupported;
      hide TypeOf;
      if r in refs {
        assert refs[r] == TypeOf(g, rank, r);
        return Some(refs[r]);
      }
      hide Consistent;
      t := ParseType(g, rank, stack, r);
      if t.Some? {
        InsertRef(g, rank, stack, caches.named.Keys, defs, refs, r);
        refs := refs[r := t.value];
      }
    }

    /** `parse_type_from_llvm_ref` */
    method ParseType(g: Graph, ghost rank: map<Ref, nat>, ghost stack: set<string>, r: Ref) returns (t: Option<Type>)
      requires Sound(g, rank) && Valid(g, rank, stack) && r in g
      modifies this
      ensures t.None? ==> ReachesUnsupported(g, r)
      ensures t.Some? ==> t.value == TypeOf(g, rank, r) && Imported(g, caches.named.Keys, refs, r)
      ensures t.Some? ==> Valid(g, rank, stack)
      ensures t.Some? ==> old(caches.named.Keys) <= caches.named.Keys
      ensures t.Some? ==> forall x :: x in old(refs) ==> x in refs
      decreases Unregistered(g, caches.named.Keys), rank[r], 1
    {
      hide CachesOk;
      hide Consistent;
      hide Names;
      hide Unregistered;
      hide ReachesUnsupported;
      match g[r]
      case IntNode(bits) =>
        var ty := Int(bits);
        t := Some(ty);
      case PtrNode(a) =>
        var ty := Pointer(a);
        t := Some(ty);
      case FpNode(k) =>
        var ty := Fp(k);
        t := Some(ty);
      case ArrayNode(_, _) => t := ParseArray(g, rank, stack, r);
      case VectorNode(_, _, _) => t := ParseVector(g, rank, stack, r);
      case StructNode(_, _, _, _) => t := ParseStruct(g, rank, stack, r);
      case FuncNode(_, _, _) => t := ParseFunc(g, rank, stack, r);
      case VoidNode => return Some(VoidType);
      case MmxNode => return Some(X86MMXType);
      case AmxNode => return Some(X86AMXType);
      case MetadataNode => return Some(MetadataType);
      case LabelNode => return Some(LabelType);
      case TokenNode => return Some(TokenType);
      case TargetExtNode => return Some(TargetExtType);
    }

    /** The array case: the element first. */
    method ParseArray(g: Graph, ghost rank: map<Ref, nat>, ghost stack: set<string>, r: Ref) returns (t: Option<Type>)
      requires Sound(g, rank) && Valid(g, rank, stack) && r in g && g[r].ArrayNode?
      modifies this
      ensures t.None? ==> ReachesUnsupported(g, r)
      ensures t.Some? ==> t.value == TypeOf(g, rank, r) && Imported(g, caches.named.Keys, refs, r)
      ensures t.Some? ==> Valid(g, rank, stack)
      ensures t.Some? ==> old(caches.named.Keys) <= caches.named.Keys
      ensures t.Some? ==> forall x :: x in old(refs) ==> x in refs
      decreases Unregistered(g, caches.named.Keys), rank[r], 0, 3
    {
      hide CachesOk;
      hide Consistent;
      hide Names;
      hide Unregistered;
      hide ReachesUnsupported;
      var n := g[r];
      assert Children(n) == [n.elem] && Children(n)[0] == n.elem;
      var elem := TypeFromRef(g, rank, stack, n.elem);
      if elem.None? {
        ReachesThrough(g, r, n.elem);
        return None;
      }
      var ty := Array(elem.value, n.count);
      t := Some(ty);
    }

    /** The vector case: the element first. */
    method ParseVector(g: Graph, ghost rank: map<Ref, nat>, ghost stack: set<string>, r: Ref) returns (t: Option<Type>)
      requires Sound(g, rank) && Valid(g, rank, stack) && r in g && g[r].VectorNode?
      modifies this
      ensures t.None? ==> ReachesUnsupported(g, r)
      ensures t.Some? ==> t.value == TypeOf(g, rank, r) && Imported(g, caches.named.Keys, refs, r)
      ensures t.Some? ==> Valid(g, rank, stack)
      ensures t.Some? ==> old(caches.named.Keys) <= caches.named.Keys
      ensures t.Some? ==> forall x :: x in old(refs) ==> x in refs
      decreases Unregistered(g, caches.named.Keys), rank[r], 0, 3
    {
      hide CachesOk;
      hide Consistent;
      hide Names;
      hide Unregistered;
      hide ReachesUnsupported;
      var n := g[r];
      assert Children(n) == [n.vecElem] && Children(n)[0] == n.vecElem;
      var elem := TypeFromRef(g, rank, stack, n.vecElem);
      if elem.None? {
        ReachesThrough(g, r, n.vecElem);
        return None;
      }
      var ty := Vector(elem.value, n.lanes, n.scalable);
      t := Some(ty);
    }

    /** The function case: the result first, then the parameters. */
    method ParseFunc(g: Graph, ghost rank: map<Ref, nat>, ghost stack: set<string>, r: Ref) returns (t: Option<Type>)
      requires Sound(g, rank) && Valid(g, rank, stack) && r in g && g[r].FuncNode?
      modifies this
      ensures t.None? ==> ReachesUnsupported(g, r)
      ensures t.Some? ==> t.value == TypeOf(g, rank, r) && Imported(g, caches.named.Keys, refs, r)
      ensures t.Some? ==> Valid(g, rank, stack)
      ensures t.Some? ==> old(caches.named.Keys) <= caches.named.Keys
      ensures t.Some? ==> forall x :: x in old(refs) ==> x in refs
      decreases Unregistered(g, caches.named.Keys), rank[r], 0, 3
    {
      hide CachesOk;
      hide Consistent;
      hide Names;
      hide Unregistered;
      hide ReachesUnsupported;
      var n := g[r];
      assert Children(n)[0] == n.result;
      assert forall i :: 0 <= i < |n.params| ==> Children(n)[i + 1] == n.params[i];
      var result := TypeFromRef(g, rank, stack, n.result);
      if result.None? {
        ReachesThrough(g, r, n.result);
        return None;
      }
      Fewer(g, old(caches.named.Keys), caches.named.Keys);
      var params := TypesFromRefs(g, rank, stack, n.params, rank[r], r);
      if params.None? {
        return None;
      }
      var ty := Func(result.value, params.value, n.isVarArg);
      t := Some(ty);
    }

    /** The struct case: a name is registered before its members are imported, so that cycles end there. */
    method ParseStruct(g: Graph, ghost rank: map<Ref, nat>, ghost stack: set<string>, r: Ref) returns (t: Option<Type>)
      requires Sound(g, rank) && Valid(g, rank, stack) && r in g && g[r].StructNode?
      modifies this
      ensures t.None? ==> ReachesUnsupported(g, r)
      ensures t.Some? ==> t.value == TypeOf(g, rank, r) && Imported(g, caches.named.Keys, refs, r)
      ensures t.Some? ==> Valid(g, rank, stack)
      ensures t.Some? ==> old(caches.named.Keys) <= caches.named.Keys
      ensures t.Some? ==> forall x :: x in old(refs) ==> x in refs
      decreases Unregistered(g, caches.named.Keys), rank[r], 0, 3
    {
      hide CachesOk;
      hide Consistent;
      hide Names;
      hide Unregistered;
      hide ReachesUnsupported;
      if IsNamed(g[r]) {
        t := ParseNamedStruct(g, rank, stack, r);
      } else {
        t := ParseLiteralStruct(g, rank, stack, r);
      }
    }

    /** `struct_type_from_llvm_ref` on a struct without a name, with its panic on an opaque one. */
    method ParseLiteralStruct(g: Graph, ghost rank: map<Ref, nat>, ghost stack: set<string>, r: Ref) returns (t: Option<Type>)
      requires Sound(g, rank) && Valid(g, rank, stack) && r in g && g[r].StructNode? && !IsNamed(g[r])
      modifies this
      ensures t.None? ==> ReachesUnsupported(g, r)
      ensures t.Some? ==> t.value == TypeOf(g, rank, r) && Imported(g, caches.named.Keys, refs, r)
      ensures t.Some? ==> Valid(g, rank, stack)
      ensures t.Some? ==> old(caches.named.Keys) <= caches.named.Keys
      ensures t.Some? ==> forall x :: x in old(refs) ==> x in refs
      decreases Unregistered(g, caches.named.Keys), rank[r], 0, 2
    {
      hide CachesOk;
      hide Consistent;
      hide Names;
      hide Unregistered;
      hide ReachesUnsupported;
      var n := g[r];
      if n.isOpaque {
        ReachesItself(g, r);
        return None;
      }
      assert Children(n) == n.elems;
      var members := TypesFromRefs(g, rank, stack, n.elems, rank[r], r);
      if members.None? {
        return None;
      }
      var ty := Struct(members.value, n.isPacked);
      t := Some(ty);
    }

    /** The named case: known, opaque, or to be defined. */
    method ParseNamedStruct(g: Graph, ghost rank: map<Ref, nat>, ghost stack: set<string>, r: Ref) returns (t: Option<Type>)
      requires Sound(g, rank) && Valid(g, rank, stack) && r in g && IsNamed(g[r])
      modifies this
      ensures t.None? ==> ReachesUnsupported(g, r)
      ensures t.Some? ==> t.value == NamedStructType(g[r].name) && g[r].name in caches.named
      ensures t.Some? ==> Valid(g, rank, stack)
      ensures t.Some? ==> old(caches.named.Keys) <= caches.named.Keys
      ensures t.Some? ==> forall x :: x in old(refs) ==> x in refs
      decreases Unregistered(g, caches.named.Keys), rank[r], 0, 2
    {
      hide CachesOk;
      hide Consistent;
      hide Names;
      hide Unregistered;
      hide ReachesUnsupported;
      var n := g[r];
      if n.name in caches.named {
        var ty := NamedStruct(n.name);
        assert caches.named.Keys == old(caches.named.Keys);
        t := Some(ty);
      } else if n.isOpaque {
        DefineOpaque(g, rank, stack, caches.named.Keys, defs, refs, r);
        AddNamedStructDef(n.name, Opaque);
        var ty := NamedStruct(n.name);
        t := Some(ty);
      } else {
        t := DefineStruct(g, rank, stack, r);
      }
    }

    /** Registers the name, imports the members, then enters the definition. */
    method DefineStruct(g: Graph, ghost rank: map<Ref, nat>, ghost stack: set<string>, r: Ref) returns (t: Option<Type>)
      requires Sound(g, rank) && Valid(g, rank, stack) && r in g && IsNamed(g[r])
      requires g[r].name !in caches.named && !g[r].isOpaque
      modifies this
      ensures t.None? ==> ReachesUnsupported(g, r)
      ensures t.Some? ==> t.value == NamedStructType(g[r].name) && g[r].name in caches.named
      ensures t.Some? ==> Valid(g, rank, stack)
      ensures t.Some? ==> old(caches.named.Keys) <= caches.named.Keys
      ensures t.Some? ==> forall x :: x in old(refs) ==> x in refs
      decreases Unregistered(g, caches.named.Keys), rank[r], 0, 1
    {
      hide CachesOk;
      hide Consistent;
      hide Names;
      hide Unregistered;
      hide ReachesUnsupported;
      hide TypeOf;
      var n := g[r];
      assert Children(n) == n.elems;
      EnterStruct(g, rank, stack, caches.named.Keys, defs, refs, r);
      var ty := NamedStruct(n.name);
      NameListed(g, r);
      FewerStrict(g, old(caches.named.Keys), caches.named.Keys, n.name);
      var members := TypesFromRefs(g, rank, stack + {n.name}, n.elems, Bound(rank, n.elems), r);
      if members.None? {
        return None;
      }
      var body := Struct(members.value, n.isPacked);
      LeaveStruct(g, rank, stack, caches.named.Keys, defs, refs, r);
      AddNamedStructDef(n.name, Defined(body));
      t := Some(ty);
    }

    /** The members of a struct or the parameters of a function, left to right. */
    method TypesFromRefs(g: Graph, ghost rank: map<Ref, nat>, ghost stack: set<string>, rs: seq<Ref>, ghost bound: nat, ghost parent: Ref) returns (ts: Option<seq<Type>>)
      requires Sound(g, rank) && Valid(g, rank, stack)
      requires forall i :: 0 <= i < |rs| ==> rs[i] in g && rs[i] in rank && rank[rs[i]] < bound
      requires parent in g && forall i :: 0 <= i < |rs| ==> rs[i] in Children(g[parent])
      modifies this
      ensures ts.None? ==> ReachesUnsupported(g, parent)
      ensures ts.Some? ==> ts.value == TypesOf(g, rank, rs) && forall i :: 0 <= i < |rs| ==> rs[i] in refs
      ensures ts.Some? ==> Valid(g, rank, stack)
      ensures ts.Some? ==> old(caches.named.Keys) <= caches.named.Keys
      ensures ts.Some? ==> forall x :: x in old(refs) ==> x in refs
      decreases Unregistered(g, caches.named.Keys), bound, 0, 0
    {
      hide CachesOk;
      hide Consistent;
      hide TypeOf;
      hide Names;
      hide Unregistered;
      hide WellFormed;
      hide Ranked;
      hide Valid;
      hide ReachesUnsupported;
      hide Children;
      var types: seq<Type> := [];
      for i := 0 to |rs|
        invariant Valid(g, rank, stack)
        invariant |types| == i && forall j :: 0 <= j < i ==> types[j] == TypeOf(g, rank, rs[j]) && rs[j] in refs
        invariant old(caches.named.Keys) <= caches.named.Keys
        invariant forall x :: x in old(refs) ==> x in refs
      {
        Fewer(g, old(caches.named.Keys), caches.named.Keys);
        var t := TypeFromRef(g, rank, stack, rs[i]);
        if t.None? {
          ReachesThrough(g, parent, rs[i]);
          return None;
        }
        types := types + [t.value];
      }
      ts := Some(types);
    }

    /**
     An outermost import. It panics exactly when an unnamed opaque struct is part of the type, named
     structs included; otherwise every registered name has exactly one definition.
     */
    method Import(g: Graph, ghost rank: map<Ref, nat>, r: Ref) returns (t: Option<Type>)
      requires Sound(g, rank) && Valid(g, rank, {}) && r in g
      modifies this
      ensures t.None? ==> ReachesUnsupported(g, r)
      ensures UniqueNames(g) && t.Some? ==> !ReachesUnsupported(g, r)
      ensures t.Some? ==> Valid(g, rank, {}) && t.value == TypeOf(g, rank, r) && caches.named.Keys == defs.Keys
    {
      hide ReachesUnsupported;
      hide TypeOf;
      hide Explored;
      t := TypeFromRef(g, rank, {}, r);
      if t.Some? && UniqueNames(g) {
        assert caches.named.Keys == defs.Keys;
        ExploredIsClean(g, defs, refs, r);
      }
    }
  }
}
