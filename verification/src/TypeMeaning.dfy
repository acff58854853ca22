/**
 What an import of types means: the imported type has the bytes the graph has, and every type, with
 every table of struct definitions, is the import of some graph.
 */
module TypeMeaning {
  import opened Common
  import opened Types
  import opened TypeSize
  import opened TypeImport

  // ------------------------------------------------------------ bytes of a graph

  predicate HoldsByValue(n: Node) { n.ArrayNode? || n.StructNode? }

  /** No type contains itself by value: a rank falls from arrays and structs, named ones included, to their parts. */
  ghost predicate Solid(g: Graph, level: map<Ref, nat>) {
    && level.Keys == g.Keys
    && forall r :: r in g && HoldsByValue(g[r]) ==>
         forall i :: 0 <= i < |Children(g[r])| ==> Children(g[r])[i] in level && level[Children(g[r])[i]] < level[r]
  }

  /** Bytes counted on the graph: a byte per eight bits of an integer, eight per pointer, without any bound. */
  ghost function GraphBytes(g: Graph, level: map<Ref, nat>, r: Ref): Option<nat>
    requires WellFormed(g) && Solid(g, level) && r in g
    decreases level[r], 1, 0
  {
    match g[r]
    case IntNode(bits) => Some((bits + 7) / 8)
    case PtrNode(_) => Some(8)
    case ArrayNode(e, n) =>
      assert Children(g[r])[0] == e;
      var b := GraphBytes(g, level, e);
      if b.Some? then Some(n * b.value) else None
    case StructNode(_, isOpaque, es, _) =>
      if isOpaque then None else
      assert Children(g[r]) == es;
      SumOfBytes(g, level, es, level[r])
    case _ => None
  }

  ghost function SumOfBytes(g: Graph, level: map<Ref, nat>, rs: seq<Ref>, bound: nat): Option<nat>
    requires WellFormed(g) && Solid(g, level)
    requires forall i :: 0 <= i < |rs| ==> rs[i] in g && level[rs[i]] < bound
    decreases bound, 0, |rs|
  {
    if rs == [] then Some(0) else
    assert forall i :: 0 <= i < |rs[1..]| ==> rs[1..][i] == rs[i + 1];
    var h, t := GraphBytes(g, level, rs[0]), SumOfBytes(g, level, rs[1..], bound);
    if h.Some? && t.Some? then Some(h.value + t.value) else None
  }

  // ------------------------------------------------------------ the imported table

  /** Everything in `seen` has its parts in `seen`, and its definition in the table if it is a named struct. */
  ghost predicate Covered(g: Graph, rank: map<Ref, nat>, defs: Defs, seen: set<Ref>)
    requires Sound(g, rank)
  {
    forall r :: r in seen ==>
      && r in g && !Unsupported(g[r])
      && (forall i :: 0 <= i < |Children(g[r])| ==> Children(g[r])[i] in seen)
      && (IsNamed(g[r]) ==> g[r].name in defs && defs[g[r].name] == DefOf(g, rank, r))
  }

  /** A finished import covers what it imported. */
  lemma {:induction false} ImportCovers(g: Graph, rank: map<Ref, nat>, defs: Defs, refs: map<Ref, Type>)
    requires Consistent(g, rank, {}, defs.Keys, defs, refs) && UniqueNames(g)
    ensures Covered(g, rank, defs, refs.Keys)
  {
    hide TypeOf;
    hide TypesOf;
    hide Children;
    forall r | r in refs && IsNamed(g[r]) ensures g[r].name in defs && defs[g[r].name] == DefOf(g, rank, r) {
      assert HasDef(g, rank, g[r].name, defs[g[r].name]);
    }
  }

  /** The node of a name, and the level of that node. */
  ghost function NameLevels(g: Graph, level: map<Ref, nat>): (m: map<string, nat>)
    requires UniqueNames(g) && level.Keys == g.Keys
    ensures forall r :: r in g && IsNamed(g[r]) ==> g[r].name in m && m[g[r].name] == level[r]
  {
    map n | n in Names(g) :: (var r :| r in g && IsNamed(g[r]) && g[r].name == n; level[r])
  }

  lemma {:induction false} HeightsBelow(es: seq<Type>, ranks: map<string, nat>, b: nat)
    requires forall i :: 0 <= i < |es| ==> Height(es[i], ranks) <= b
    ensures MaxHeight(es, ranks) <= b
  {
    if es != [] {
      assert forall i :: 0 <= i < |es[1..]| ==> es[1..][i] == es[i + 1];
      HeightsBelow(es[1..], ranks, b);
    }
  }

  /** Nesting of an imported type is bounded by the level of its node. */
  lemma {:induction false} HeightOfImport(g: Graph, rank: map<Ref, nat>, level: map<Ref, nat>, r: Ref)
    requires Sound(g, rank) && Solid(g, level) && UniqueNames(g) && r in g
    ensures Height(TypeOf(g, rank, r), NameLevels(g, level)) <= level[r] + (if IsNamed(g[r]) then 1 else 0)
    decreases rank[r]
  {
    var ranks := NameLevels(g, level);
    match g[r]
    case ArrayNode(e, _) =>
      assert Children(g[r])[0] == e;
      HeightOfImport(g, rank, level, e);
    case StructNode(_, _, _, _) =>
      if !IsNamed(g[r]) {
        var ms := Children(g[r]);
        forall i | 0 <= i < |ms| ensures Height(TypeOf(g, rank, ms[i]), ranks) <= level[r] {
          HeightOfImport(g, rank, level, ms[i]);
        }
        HeightsBelow(TypesOf(g, rank, ms), ranks, level[r]);
        assert TypeOf(g, rank, r) == StructType(TypesOf(g, rank, ms), g[r].isPacked);
      }
    case _ =>
  }

  lemma {:induction false} HeightOfBody(g: Graph, rank: map<Ref, nat>, level: map<Ref, nat>, r: Ref)
    requires Sound(g, rank) && Solid(g, level) && UniqueNames(g) && r in g && IsNamed(g[r]) && DefOf(g, rank, r).Defined?
    ensures Height(DefOf(g, rank, r).ty, NameLevels(g, level)) <= level[r]
  {
    hide TypeOf;
    var ms, ranks := Children(g[r]), NameLevels(g, level);
    forall i | 0 <= i < |ms| ensures Height(TypeOf(g, rank, ms[i]), ranks) <= level[r] {
      HeightOfImport(g, rank, level, ms[i]);
    }
    HeightsBelow(TypesOf(g, rank, ms), ranks, level[r]);
  }

  /** The imported table is acyclic by value, as the size of a type needs it. */
  lemma {:induction false} ImportIsAcyclic(g: Graph, rank: map<Ref, nat>, level: map<Ref, nat>, defs: Defs, refs: map<Ref, Type>)
    requires Consistent(g, rank, {}, defs.Keys, defs, refs) && UniqueNames(g) && Solid(g, level)
    ensures Acyclic(defs)
  {
    hide TypeOf;
    hide Height;
    hide DefOf;
    hide Explored;
    var ranks := NameLevels(g, level);
    forall s | s in defs && defs[s].Defined? ensures s in ranks && Height(defs[s].ty, ranks) <= ranks[s] {
      assert HasDef(g, rank, s, defs[s]);
      var r :| r in g && IsNamed(g[r]) && g[r].name == s && defs[s] == DefOf(g, rank, r);
      HeightOfBody(g, rank, level, r);
    }
    assert TypeSize.Ranked(defs, ranks);
  }

  // ------------------------------------------------------------ same bytes

  lemma {:induction false} BytesOfImport(g: Graph, rank: map<Ref, nat>, level: map<Ref, nat>, defs: Defs, seen: set<Ref>, r: Ref)
    requires Sound(g, rank) && Solid(g, level) && Acyclic(defs) && Covered(g, rank, defs, seen) && r in seen
    ensures var l, b := Leaves(TypeOf(g, rank, r), defs), GraphBytes(g, level, r);
      (l.Some? <==> b.Some?) && (l.Some? ==> Bytes(l.value) == b.value)
    decreases level[r], 2, 0
  {
    hide Leaves;
    hide GraphBytes;
    hide TypeOf;
    if g[r].ArrayNode? {
      ArrayBytes(g, rank, level, defs, seen, r);
    } else if g[r].StructNode? {
      StructBytes(g, rank, level, defs, seen, r);
    } else {
      SimpleBytes(g, rank, level, defs, r);
    }
  }

  lemma {:induction false} SimpleBytes(g: Graph, rank: map<Ref, nat>, level: map<Ref, nat>, defs: Defs, r: Ref)
    requires Sound(g, rank) && Solid(g, level) && Acyclic(defs) && r in g && !HoldsByValue(g[r])
    ensures var l, b := Leaves(TypeOf(g, rank, r), defs), GraphBytes(g, level, r);
      (l.Some? <==> b.Some?) && (l.Some? ==> Bytes(l.value) == b.value)
  {
    hide Bytes;
    match g[r]
    case IntNode(b) => OneLeaf(IntegerType(b));
    case PtrNode(a) => OneLeaf(PointerType(a));
    case _ =>
  }

  lemma {:induction false} ArrayBytes(g: Graph, rank: map<Ref, nat>, level: map<Ref, nat>, defs: Defs, seen: set<Ref>, r: Ref)
    requires Sound(g, rank) && Solid(g, level) && Acyclic(defs) && Covered(g, rank, defs, seen) && r in seen && g[r].ArrayNode?
    ensures var l, b := Leaves(TypeOf(g, rank, r), defs), GraphBytes(g, level, r);
      (l.Some? <==> b.Some?) && (l.Some? ==> Bytes(l.value) == b.value)
    decreases level[r], 1, 0
  {
    hide Bytes;
    hide Repeat;
    var e, n := g[r].elem, g[r].count;
    assert Children(g[r])[0] == e;
    BytesOfImport(g, rank, level, defs, seen, e);
    if Leaves(TypeOf(g, rank, e), defs).Some? {
      BytesRepeat(Leaves(TypeOf(g, rank, e), defs).value, n);
    }
  }

  lemma {:induction false} StructBytes(g: Graph, rank: map<Ref, nat>, level: map<Ref, nat>, defs: Defs, seen: set<Ref>, r: Ref)
    requires Sound(g, rank) && Solid(g, level) && Acyclic(defs) && Covered(g, rank, defs, seen) && r in seen && g[r].StructNode?
    ensures var l, b := Leaves(TypeOf(g, rank, r), defs), GraphBytes(g, level, r);
      (l.Some? <==> b.Some?) && (l.Some? ==> Bytes(l.value) == b.value)
    decreases level[r], 1, 0
  {
    var ms := Children(g[r]);
    if g[r].isOpaque {
      assert defs[g[r].name] == Opaque;
    } else {
      MemberBytes(g, rank, level, defs, seen, ms, level[r]);
      StructLeaves(g, rank, defs, r);
    }
  }

  /** The leaves of a struct, named or not, are those of its members. */
  lemma {:induction false} StructLeaves(g: Graph, rank: map<Ref, nat>, defs: Defs, r: Ref)
    requires Sound(g, rank) && Acyclic(defs) && r in g && g[r].StructNode? && !g[r].isOpaque
    requires IsNamed(g[r]) ==> g[r].name in defs && defs[g[r].name] == DefOf(g, rank, r)
    ensures Leaves(TypeOf(g, rank, r), defs) == LeavesOfAll(TypesOf(g, rank, Children(g[r])), defs)
  {
    hide LeavesOfAll;
    var body := StructType(TypesOf(g, rank, Children(g[r])), g[r].isPacked);
    if IsNamed(g[r]) {
      assert ResolveNamed(NamedStructType(g[r].name), defs) == ResolveNamed(body, defs) == Some(body);
    } else {
      assert TypeOf(g, rank, r) == body;
    }
  }

  lemma {:induction false} MemberBytes(g: Graph, rank: map<Ref, nat>, level: map<Ref, nat>, defs: Defs, seen: set<Ref>, rs: seq<Ref>, bound: nat)
    requires Sound(g, rank) && Solid(g, level) && Acyclic(defs) && Covered(g, rank, defs, seen)
    requires forall i :: 0 <= i < |rs| ==> rs[i] in seen && level[rs[i]] < bound
    ensures var l, b := LeavesOfAll(TypesOf(g, rank, rs), defs), SumOfBytes(g, level, rs, bound);
      (l.Some? <==> b.Some?) && (l.Some? ==> Bytes(l.value) == b.value)
    decreases bound, 0, |rs|
  {
    hide TypeOf;
    hide Leaves;
    hide GraphBytes;
    hide WellFormed;
    hide TypeImport.Ranked;
    if rs != [] {
      BytesOfImport(g, rank, level, defs, seen, rs[0]);
      assert forall i :: 0 <= i < |rs[1..]| ==> rs[1..][i] == rs[i + 1];
      MemberBytes(g, rank, level, defs, seen, rs[1..], bound);
      var tys := TypesOf(g, rank, rs);
      assert tys[0] == TypeOf(g, rank, rs[0]) && tys[1..] == TypesOf(g, rank, rs[1..]);
      var h, t := Leaves(tys[0], defs), LeavesOfAll(tys[1..], defs);
      if h.Some? && t.Some? {
        BytesConcat(h.value, t.value);
      }
    }
  }

  /**
   The size of an imported type under the imported table: the byte count of the graph modulo 2^64,
   unknown exactly when the graph has no count or a struct's checked sum overflows.
   */
  lemma {:induction false} ImportedSize(g: Graph, rank: map<Ref, nat>, level: map<Ref, nat>, defs: Defs, refs: map<Ref, Type>, r: Ref)
    requires Consistent(g, rank, {}, defs.Keys, defs, refs) && UniqueNames(g) && Solid(g, level) && r in refs
    ensures Acyclic(defs) && refs[r] == TypeOf(g, rank, r)
    ensures var b := GraphBytes(g, level, r);
      SizeOf(refs[r], defs) == if b.Some? && SumsFit(refs[r], defs) then Some(b.value % U64_LIMIT) else None
  {
    ImportIsAcyclic(g, rank, level, defs, refs);
    ImportCovers(g, rank, defs, refs);
    hide TypeOf;
    hide SizeOf;
    hide Leaves;
    hide GraphBytes;
    hide SumsFit;
    hide Covered;
    BytesOfImport(g, rank, level, defs, refs.Keys, r);
    SizeModulo(refs[r], defs);
  }
}
