/**
 Byte sizes of types as the analyzer computes them: padding-free, `u64`, additions checked and
 array products wrapping.
 */
module TypeSize {
  import opened Common
  import opened Types

  // ------------------------------------------------------------ by-value nesting

  /** Nesting depth of a type when the named struct `n` counts as `rank[n] + 1`. */
  ghost function Height(ty: Type, rank: map<string, nat>): nat
    decreases ty, 1
  {
    match ty
    case NamedStructType(n) => if n in rank then rank[n] + 1 else 0
    case ArrayType(e, _) => Height(e, rank)
    case StructType(es, _) => MaxHeight(es, rank)
    case _ => 0
  }

  ghost function MaxHeight(es: seq<Type>, rank: map<string, nat>): (h: nat)
    ensures forall i :: 0 <= i < |es| ==> Height(es[i], rank) <= h
    decreases es, 0
  {
    if es == [] then 0 else
    var h, t := Height(es[0], rank), MaxHeight(es[1..], rank);
    assert forall i :: 1 <= i < |es| ==> es[i] == es[1..][i - 1];
    if h > t then h else t
  }

  ghost predicate Ranked(defs: Defs, rank: map<string, nat>) {
    forall s :: s in defs && defs[s].Defined? ==> s in rank && Height(defs[s].ty, rank) <= rank[s]
  }

  /** No struct contains itself by value. */
  ghost predicate Acyclic(defs: Defs) { exists rank :: Ranked(defs, rank) }

  ghost function RankOf(defs: Defs): (rank: map<string, nat>)
    requires Acyclic(defs)
    ensures Ranked(defs, rank)
  {
    var rank :| Ranked(defs, rank);
    rank
  }

  // ------------------------------------------------------------ the source's functions

  /** `resolve_named_type` */
  function ResolveNamed(ty: Type, defs: Defs): (r: Option<Type>)
    requires Acyclic(defs)
    ensures r.Some? ==> !r.value.NamedStructType?
    ensures r.Some? ==> r.value == ty || Height(r.value, RankOf(defs)) < Height(ty, RankOf(defs))
    ensures !ty.NamedStructType? ==> r == Some(ty)
    decreases Height(ty, RankOf(defs))
  {
    match ty
    case NamedStructType(n) =>
      if n in defs && defs[n].Defined? then ResolveNamed(defs[n].ty, defs) else None
    case _ => Some(ty)
  }

  /** Sum of two sizes, `None` when either is missing or `checked_add` overflows. */
  function AddSizes(a: Option<U64>, b: Option<U64>): Option<U64> {
    if a.Some? && b.Some? && a.value + b.value < U64_LIMIT then Some(a.value + b.value) else None
  }

  /** Size of `n` elements; the product wraps. */
  function ScaleSize(s: Option<U64>, n: U64): Option<U64> {
    if s.Some? then Some(s.value * n % U64_LIMIT) else None
  }

  /** `type_size` */
  function SizeOf(ty: Type, defs: Defs): Option<U64>
    requires Acyclic(defs)
    decreases Height(ty, RankOf(defs)), ty, 1
  {
    match ResolveNamed(ty, defs)
    case None => None
    case Some(IntegerType(bits)) => Some((bits + 7) / 8)
    case Some(PointerType(_)) => Some(8)
    case Some(ArrayType(e, n)) =>
      ScaleSize(SizeOf(e, defs), n)
    case Some(StructType(es, _)) => SizeOfAll(es, defs)
    case Some(_) => None
  }

  /** Checked sum of the sizes of a struct's members. */
  function SizeOfAll(es: seq<Type>, defs: Defs): Option<U64>
    requires Acyclic(defs)
    decreases MaxHeight(es, RankOf(defs)), es, 0
  {
    if es == [] then Some(0) else
    assert MaxHeight(es[1..], RankOf(defs)) <= MaxHeight(es, RankOf(defs));
    AddSizes(SizeOf(es[0], defs), SizeOfAll(es[1..], defs))
  }

  /** `type_size` as written: one pass over a struct's members with an early exit. */
  method ComputeSize(ty: Type, defs: Defs) returns (r: Option<U64>)
    requires Acyclic(defs)
    ensures r == SizeOf(ty, defs)
    decreases Height(ty, RankOf(defs)), ty, 1
  {
    var resolved := ResolveNamed(ty, defs);
    match resolved
    case None => return None;
    case Some(IntegerType(bits)) => return Some((bits + 7) / 8);
    case Some(PointerType(_)) => return Some(8);
    case Some(ArrayType(e, n)) =>
      var s := ComputeSize(e, defs);
      return ScaleSize(s, n);
    case Some(StructType(es, _)) =>
      r := ComputeSizeOfAll(es, defs);
    case Some(_) => return None;
  }

  method ComputeSizeOfAll(es: seq<Type>, defs: Defs) returns (r: Option<U64>)
    requires Acyclic(defs)
    ensures r == SizeOfAll(es, defs)
    decreases MaxHeight(es, RankOf(defs)), es, 0
  {
    hide SizeOf;
    var total: U64 := 0;
    for i := 0 to |es|
      invariant SizeOfAll(es, defs) == AddSizes(Some(total), SizeOfAll(es[i..], defs))
    {
      var s := ComputeSize(es[i], defs);
      assert es[i..][1..] == es[i + 1..];
      assert SizeOfAll(es[i..], defs) == AddSizes(s, SizeOfAll(es[i + 1..], defs));
      if s.None? || total + s.value >= U64_LIMIT {
        return None;
      }
      total := total + s.value;
    }
    return Some(total);
  }

  // ------------------------------------------------------------ named structs are transparent

  /** `ty` with every by-value use of the named struct `n` replaced by `d`. */
  function Expand(ty: Type, n: string, d: Type): Type
    decreases ty, 1
  {
    match ty
    case NamedStructType(m) => if m == n then d else ty
    case ArrayType(e, k) => ArrayType(Expand(e, n, d), k)
    case StructType(es, p) => StructType(ExpandAll(es, n, d), p)
    case _ => ty
  }

  function ExpandAll(es: seq<Type>, n: string, d: Type): (r: seq<Type>)
    ensures |r| == |es|
    decreases es, 0
  {
    if es == [] then [] else [Expand(es[0], n, d)] + ExpandAll(es[1..], n, d)
  }

  /** Writing out a definition in place of its name never changes a size. */
  lemma {:induction false} ExpandKeepsSize(ty: Type, n: string, defs: Defs)
    requires Acyclic(defs) && n in defs && defs[n].Defined?
    ensures SizeOf(Expand(ty, n, defs[n].ty), defs) == SizeOf(ty, defs)
    decreases ty, 1
  {
    match ty
    case ArrayType(e, _) => ExpandKeepsSize(e, n, defs);
    case StructType(es, _) => ExpandAllKeepsSize(es, n, defs);
    case NamedStructType(m) =>
    case _ =>
  }

  lemma {:induction false} ExpandAllKeepsSize(es: seq<Type>, n: string, defs: Defs)
    requires Acyclic(defs) && n in defs && defs[n].Defined?
    ensures SizeOfAll(ExpandAll(es, n, defs[n].ty), defs) == SizeOfAll(es, defs)
    decreases es, 0
  {
    if es != [] {
      ExpandKeepsSize(es[0], n, defs);
      ExpandAllKeepsSize(es[1..], n, defs);
      assert ExpandAll(es, n, defs[n].ty)[1..] == ExpandAll(es[1..], n, defs[n].ty);
    }
  }

  // ------------------------------------------------------------ nested structs flatten

  lemma {:induction false} SizeOfConcat(a: seq<Type>, b: seq<Type>, defs: Defs)
    requires Acyclic(defs)
    ensures SizeOfAll(a + b, defs) == AddSizes(SizeOfAll(a, defs), SizeOfAll(b, defs))
  {
    if a == [] {
      assert a + b == b;
    } else {
      assert (a + b)[1..] == a[1..] + b;
      SizeOfConcat(a[1..], b, defs);
    }
  }

  /** Inlining a nested struct's members gives the same size, overflow included. */
  lemma {:induction false} FlattenKeepsSize(a: seq<Type>, b: seq<Type>, c: seq<Type>, inner: bool, outer: bool, defs: Defs)
    requires Acyclic(defs)
    ensures SizeOf(StructType(a + [StructType(b, inner)] + c, outer), defs)
         == SizeOf(StructType(a + b + c, outer), defs)
  {
    var m := [StructType(b, inner)];
    SizeOfConcat(a + m, c, defs);
    SizeOfConcat(a, m, defs);
    SizeOfConcat(a + b, c, defs);
    SizeOfConcat(a, b, defs);
    assert m[1..] == [];
    assert SizeOfAll(m, defs) == AddSizes(SizeOfAll(b, defs), Some(0));
  }

  // ------------------------------------------------------------ exact sizes

  /** The integer and pointer leaves of a type in layout order, arrays unrolled. */
  ghost function Leaves(ty: Type, defs: Defs): Option<seq<Type>>
    requires Acyclic(defs)
    decreases Height(ty, RankOf(defs)), ty, 1
  {
    match ResolveNamed(ty, defs)
    case Some(IntegerType(b)) => Some([IntegerType(b)])
    case Some(PointerType(a)) => Some([PointerType(a)])
    case Some(ArrayType(e, n)) =>
      var l := Leaves(e, defs);
      if l.Some? then Some(Repeat(l.value, n)) else None
    case Some(StructType(es, _)) => LeavesOfAll(es, defs)
    case _ => None
  }

  ghost function LeavesOfAll(es: seq<Type>, defs: Defs): Option<seq<Type>>
    requires Acyclic(defs)
    decreases MaxHeight(es, RankOf(defs)), es, 0
  {
    if es == [] then Some([]) else
    assert MaxHeight(es[1..], RankOf(defs)) <= MaxHeight(es, RankOf(defs));
    var h, t := Leaves(es[0], defs), LeavesOfAll(es[1..], defs);
    if h.Some? && t.Some? then Some(h.value + t.value) else None
  }

  ghost function Repeat(s: seq<Type>, n: nat): seq<Type> {
    if n == 0 then [] else s + Repeat(s, n - 1)
  }

  ghost function LeafBytes(ty: Type): nat {
    if ty.IntegerType? then (ty.bits + 7) / 8 else 8
  }

  /** Total bytes of a list of leaves, without any bound. */
  ghost function Bytes(leaves: seq<Type>): nat {
    if leaves == [] then 0 else LeafBytes(leaves[0]) + Bytes(leaves[1..])
  }

  lemma {:induction false} BytesConcat(a: seq<Type>, b: seq<Type>)
    ensures Bytes(a + b) == Bytes(a) + Bytes(b)
  {
    if a == [] {
      assert a + b == b;
    } else {
      assert (a + b)[1..] == a[1..] + b;
      BytesConcat(a[1..], b);
    }
  }

  lemma {:induction false} BytesRepeat(s: seq<Type>, n: nat)
    ensures Bytes(Repeat(s, n)) == n * Bytes(s)
  {
    if n > 0 {
      BytesRepeat(s, n - 1);
      BytesConcat(s, Repeat(s, n - 1));
      assert n * Bytes(s) == Bytes(s) + (n - 1) * Bytes(s);
    }
  }

  /** Every struct on the way down has member sizes, each reduced to 64 bits, whose sum fits in 64 bits. */
  ghost predicate SumsFit(ty: Type, defs: Defs)
    requires Acyclic(defs)
    decreases Height(ty, RankOf(defs)), ty, 1
  {
    match ResolveNamed(ty, defs)
    case Some(ArrayType(e, _)) => SumsFit(e, defs)
    case Some(StructType(es, _)) => AllSumsFit(es, defs) && WordSum(es, defs) < U64_LIMIT
    case _ => true
  }

  ghost predicate AllSumsFit(es: seq<Type>, defs: Defs)
    requires Acyclic(defs)
    decreases MaxHeight(es, RankOf(defs)), es, 0
  {
    es == [] ||
    (assert MaxHeight(es[1..], RankOf(defs)) <= MaxHeight(es, RankOf(defs));
     SumsFit(es[0], defs) && AllSumsFit(es[1..], defs))
  }

  /** Bytes of a type's leaves modulo 2^64. */
  ghost function Word(ty: Type, defs: Defs): nat
    requires Acyclic(defs)
  {
    if Leaves(ty, defs).Some? then Bytes(Leaves(ty, defs).value) % U64_LIMIT else 0
  }

  ghost function WordSum(es: seq<Type>, defs: Defs): nat
    requires Acyclic(defs)
  {
    if es == [] then 0 else Word(es[0], defs) + WordSum(es[1..], defs)
  }

  lemma ScaleWord(a: nat, n: nat)
    ensures (a % U64_LIMIT) * n % U64_LIMIT == n * a % U64_LIMIT
  {
    var q, r := a / U64_LIMIT, a % U64_LIMIT;
    assert n * a == r * n + (n * q) * U64_LIMIT by {
      assert a == q * U64_LIMIT + r;
    }
    DropMultiple(r * n, n * q);
  }

  lemma {:induction false} DropMultiple(x: nat, k: nat)
    ensures (x + k * U64_LIMIT) % U64_LIMIT == x % U64_LIMIT
    decreases k
  {
    if k > 0 {
      DropMultiple(x, k - 1);
      AddLimit(x + (k - 1) * U64_LIMIT);
    }
  }

  lemma AddLimit(x: nat)
    ensures (x + U64_LIMIT) % U64_LIMIT == x % U64_LIMIT
  {
  }

  lemma AddWords(a: nat, b: nat)
    requires a % U64_LIMIT + b % U64_LIMIT < U64_LIMIT
    ensures (a + b) % U64_LIMIT == a % U64_LIMIT + b % U64_LIMIT
  {
  }

  /** A size is known only for types made of integer and pointer leaves. */
  lemma {:induction false} SizedNeedsLeaves(ty: Type, defs: Defs)
    requires Acyclic(defs) && SizeOf(ty, defs).Some?
    ensures Leaves(ty, defs).Some?
    decreases Height(ty, RankOf(defs)), ty, 1
  {
    match ResolveNamed(ty, defs)
    case Some(ArrayType(e, _)) => SizedNeedsLeaves(e, defs);
    case Some(StructType(es, _)) => SizedAllNeedsLeaves(es, defs);
    case _ =>
  }

  lemma {:induction false} SizedAllNeedsLeaves(es: seq<Type>, defs: Defs)
    requires Acyclic(defs) && SizeOfAll(es, defs).Some?
    ensures LeavesOfAll(es, defs).Some?
    decreases MaxHeight(es, RankOf(defs)), es, 0
  {
    if es != [] {
      assert MaxHeight(es[1..], RankOf(defs)) <= MaxHeight(es, RankOf(defs));
      SizedNeedsLeaves(es[0], defs);
      SizedAllNeedsLeaves(es[1..], defs);
    }
  }

  /**
   The size of every type: the bytes of its leaves modulo 2^64, known exactly when the type has
   leaves throughout and no struct's checked sum overflows.
   */
  lemma {:induction false} SizeModulo(ty: Type, defs: Defs)
    requires Acyclic(defs)
    ensures SizeOf(ty, defs) == if Leaves(ty, defs).Some? && SumsFit(ty, defs) then Some(Word(ty, defs)) else None
    decreases Height(ty, RankOf(defs)), ty, 1
  {
    hide Bytes;
    hide Repeat;
    hide SizeOfAll;
    hide LeavesOfAll;
    hide AllSumsFit;
    hide WordSum;
    match ResolveNamed(ty, defs)
    case Some(IntegerType(b)) => OneLeaf(IntegerType(b));
    case Some(PointerType(a)) => OneLeaf(PointerType(a));
    case Some(ArrayType(e, n)) =>
      SizeModulo(e, defs);
      if Leaves(e, defs).Some? {
        RepeatWord(Leaves(e, defs).value, n);
      }
    case Some(StructType(es, _)) =>
      SizeOfAllModulo(es, defs);
      WordSumIsWord(es, defs);
    case _ =>
  }

  lemma RepeatWord(l: seq<Type>, n: nat)
    ensures Bytes(Repeat(l, n)) % U64_LIMIT == (Bytes(l) % U64_LIMIT) * n % U64_LIMIT
  {
    BytesRepeat(l, n);
    ScaleWord(Bytes(l), n);
  }

  lemma OneLeaf(ty: Type)
    requires ty.IntegerType? || ty.PointerType?
    ensures Bytes([ty]) == LeafBytes(ty) && Bytes([ty]) % U64_LIMIT == LeafBytes(ty)
  {
    assert [ty][1..] == [];
    SmallModulus(LeafBytes(ty), U64_LIMIT);
  }

  lemma {:induction false} SizeOfAllModulo(es: seq<Type>, defs: Defs)
    requires Acyclic(defs)
    ensures SizeOfAll(es, defs) ==
      if LeavesOfAll(es, defs).Some? && AllSumsFit(es, defs) && WordSum(es, defs) < U64_LIMIT
      then Some(WordSum(es, defs)) else None
    decreases MaxHeight(es, RankOf(defs)), es, 0
  {
    hide SizeOf;
    hide Leaves;
    hide SumsFit;
    hide Word;
    if es != [] {
      assert MaxHeight(es[1..], RankOf(defs)) <= MaxHeight(es, RankOf(defs));
      SizeModulo(es[0], defs);
      SizeOfAllModulo(es[1..], defs);
    }
  }

  lemma {:induction false} WordSumIsWord(es: seq<Type>, defs: Defs)
    requires Acyclic(defs)
    ensures LeavesOfAll(es, defs).Some? && WordSum(es, defs) < U64_LIMIT ==>
      WordSum(es, defs) == Bytes(LeavesOfAll(es, defs).value) % U64_LIMIT
  {
    hide Leaves;
    if es != [] {
      WordSumIsWord(es[1..], defs);
      var h, t := Leaves(es[0], defs), LeavesOfAll(es[1..], defs);
      if h.Some? && t.Some? && WordSum(es, defs) < U64_LIMIT {
        BytesConcat(h.value, t.value);
        AddWords(Bytes(h.value), Bytes(t.value));
      }
    }
  }

  /** A known size is the number of bytes exactly when that number fits in 64 bits. */
  lemma {:induction false} SizeIsExact(ty: Type, defs: Defs)
    requires Acyclic(defs) && SizeOf(ty, defs).Some?
    ensures Leaves(ty, defs).Some?
    ensures SizeOf(ty, defs).value == Bytes(Leaves(ty, defs).value) % U64_LIMIT
    ensures SizeOf(ty, defs).value == Bytes(Leaves(ty, defs).value) <==> Bytes(Leaves(ty, defs).value) < U64_LIMIT
  {
    hide SizeOf;
    hide Leaves;
    hide SumsFit;
    SizeModulo(ty, defs);
    var n := Bytes(Leaves(ty, defs).value);
    if n < U64_LIMIT {
      SmallModulus(n, U64_LIMIT);
    }
  }

  /** The unchecked product of an array: its size falls short exactly when the product needs more than 64 bits. */
  lemma {:induction false} ArrayProductWraps(e: Type, n: U64, defs: Defs)
    requires Acyclic(defs) && SizeOf(e, defs).Some?
    ensures Leaves(e, defs).Some?
    ensures var total := n * Bytes(Leaves(e, defs).value);
      && SizeOf(ArrayType(e, n), defs) == Some(total % U64_LIMIT)
      && (SizeOf(ArrayType(e, n), defs).value < total <==> total >= U64_LIMIT)
  {
    assert SizeOf(ArrayType(e, n), defs) == ScaleSize(SizeOf(e, defs), n);
    hide SizeOf;
    hide Leaves;
    hide SumsFit;
    hide Bytes;
    SizeModulo(e, defs);
    Wraps(Bytes(Leaves(e, defs).value), n);
  }

  lemma Wraps(bytes: nat, n: U64)
    ensures var total := n * bytes;
      && ScaleSize(Some(bytes % U64_LIMIT), n) == Some(total % U64_LIMIT)
      && (total % U64_LIMIT < total <==> total >= U64_LIMIT)
  {
    ScaleWord(bytes, n);
    var total := n * bytes;
    if total < U64_LIMIT {
      SmallModulus(total, U64_LIMIT);
    }
  }

  lemma SmallModulus(x: nat, m: nat)
    requires x < m
    ensures x % m == x
  {
  }

  // ------------------------------------------------------------ when the total fits

  /** No zero-length array hides a component from the total. */
  ghost predicate NonEmptyArrays(ty: Type, defs: Defs)
    requires Acyclic(defs)
    decreases Height(ty, RankOf(defs)), ty, 1
  {
    match ResolveNamed(ty, defs)
    case Some(ArrayType(e, n)) => n > 0 && NonEmptyArrays(e, defs)
    case Some(StructType(es, _)) => AllNonEmptyArrays(es, defs)
    case _ => true
  }

  ghost predicate AllNonEmptyArrays(es: seq<Type>, defs: Defs)
    requires Acyclic(defs)
    decreases MaxHeight(es, RankOf(defs)), es, 0
  {
    es == [] ||
    (assert MaxHeight(es[1..], RankOf(defs)) <= MaxHeight(es, RankOf(defs));
     NonEmptyArrays(es[0], defs) && AllNonEmptyArrays(es[1..], defs))
  }

  lemma AtLeastOnce(n: nat, s: nat)
    requires n > 0
    ensures s <= n * s
  {
    assert n * s == (n - 1) * s + s;
  }

  /** Without zero-length arrays every partial sum is below the total, so a total that fits is reported. */
  lemma {:induction false} SizeWhenTotalFits(ty: Type, defs: Defs)
    requires Acyclic(defs) && Leaves(ty, defs).Some? && NonEmptyArrays(ty, defs)
    requires Bytes(Leaves(ty, defs).value) < U64_LIMIT
    ensures SumsFit(ty, defs) && SizeOf(ty, defs) == Some(Bytes(Leaves(ty, defs).value))
    decreases Height(ty, RankOf(defs)), ty, 1
  {
    match ResolveNamed(ty, defs) {
      case Some(ArrayType(e, n)) =>
        BytesRepeat(Leaves(e, defs).value, n);
        AtLeastOnce(n, Bytes(Leaves(e, defs).value));
        SizeWhenTotalFits(e, defs);
      case Some(StructType(es, _)) => AllSumsWhenTotalFits(es, defs);
      case _ =>
    }
    assert SumsFit(ty, defs);
    hide *;
    SizeModulo(ty, defs);
    SizeIsExact(ty, defs);
  }

  lemma {:induction false} AllSumsWhenTotalFits(es: seq<Type>, defs: Defs)
    requires Acyclic(defs) && LeavesOfAll(es, defs).Some? && AllNonEmptyArrays(es, defs)
    requires Bytes(LeavesOfAll(es, defs).value) < U64_LIMIT
    ensures AllSumsFit(es, defs) && WordSum(es, defs) == Bytes(LeavesOfAll(es, defs).value)
    decreases MaxHeight(es, RankOf(defs)), es, 0
  {
    hide SizeOf;
    hide Leaves;
    hide NonEmptyArrays;
    hide SumsFit;
    hide LeafBytes;
    if es != [] {
      assert MaxHeight(es[1..], RankOf(defs)) <= MaxHeight(es, RankOf(defs));
      BytesConcat(Leaves(es[0], defs).value, LeavesOfAll(es[1..], defs).value);
      SizeWhenTotalFits(es[0], defs);
      AllSumsWhenTotalFits(es[1..], defs);
      SmallModulus(Bytes(Leaves(es[0], defs).value), U64_LIMIT);
    }
  }
}
