/** From which offsets saturating index products can change the decision about an access. */
module GepSaturation {
  import opened Common
  import opened Types
  import opened TypeSize
  import opened Ir
  import opened Gep

  const MAX: nat := 0xFFFF_FFFF_FFFF_FFFF

  const BASE_TYPE: Type := PointerType(0)

  /** Some index list on a pointer is accessed out of bounds under one rule and in bounds under the other. */
  predicate Separates(indices: seq<Operand>, offset: int, size: U64, len: nat, defs: Defs)
    requires Acyclic(defs)
  {
    var d, e := Delta(indices, 0, BASE_TYPE, defs), ExactDelta(indices, 0, BASE_TYPE, defs);
    d.Some? && e.Some? && (OutOfBounds(size, offset + d.value, len) <==> !OutOfBounds(size, offset + e.value, len))
  }

  /**
   A distance that one rule reaches with a saturated product while the other is elsewhere: strides
   are multiples of four, and `n` saturated products shift the residue by `-n`.
   */
  predicate Shows(x: int) {
    && x >= MAX
    && (x % 4 == 2 ==> x >= 2 * MAX)
    && (x % 4 == 1 ==> x >= 3 * MAX)
  }

  /** An in-bounds byte position of the access lies such a distance above the offset. */
  ghost predicate Exposed(offset: int, size: U64, len: nat) {
    exists x :: -offset <= x <= size - len - offset && Shows(x)
  }

  // ------------------------------------------------------------ what index lists reach

  lemma {:induction false} Shape(indices: seq<Operand>, i: nat, defs: Defs) returns (n: nat, t: nat)
    requires Acyclic(defs) && i <= |indices| && Delta(indices, i, BASE_TYPE, defs).Some?
    ensures ExactDelta(indices, i, BASE_TYPE, defs).Some?
    ensures var d, e := Delta(indices, i, BASE_TYPE, defs).value, ExactDelta(indices, i, BASE_TYPE, defs).value;
      && d == n * MAX + 4 * t && e % 4 == 0
      && (n == 0 ==> d == e) && (n >= 1 ==> e > MAX)
    decreases |indices| - i
  {
    n, t := 0, 0;
    if i < |indices| {
      hide SaturatingMul;
      n, t := Shape(indices, i + 1, defs);
      var d, e := Delta(indices, i + 1, BASE_TYPE, defs).value, ExactDelta(indices, i + 1, BASE_TYPE, defs).value;
      var v: nat, stride: nat := ConstU64(indices[i]).value, if i == 0 then 8 else 4;
      assert Delta(indices, i, BASE_TYPE, defs).value == SaturatingMul(v, stride) + d;
      assert ExactDelta(indices, i, BASE_TYPE, defs).value == v * stride + e;
      hide Delta;
      hide ExactDelta;
      n, t := OneProduct(v, stride, n, t, d, e);
    }
  }

  lemma OneProduct(v: U64, stride: U64, n: nat, t: nat, d: nat, e: nat) returns (n2: nat, t2: nat)
    requires stride == 4 || stride == 8
    requires d == n * MAX + 4 * t && e % 4 == 0 && (n == 0 ==> d == e) && (n >= 1 ==> e > MAX)
    ensures SaturatingMul(v, stride) + d == n2 * MAX + 4 * t2 && (v * stride + e) % 4 == 0
    ensures n2 == 0 ==> SaturatingMul(v, stride) + d == v * stride + e
    ensures n2 >= 1 ==> v * stride + e > MAX
  {
    if stride == 4 {
      n2, t2 := if v * 4 < U64_LIMIT then n else n + 1, if v * 4 < U64_LIMIT then t + v else t;
    } else {
      n2, t2 := if v * 8 < U64_LIMIT then n else n + 1, if v * 8 < U64_LIMIT then t + 2 * v else t;
    }
  }

  lemma {:induction false} SeparatedIsExposed(indices: seq<Operand>, offset: int, size: U64, len: nat, defs: Defs)
    requires Acyclic(defs) && Separates(indices, offset, size, len, defs)
    ensures Exposed(offset, size, len)
  {
    var n, t := Shape(indices, 0, defs);
    var d, e := Delta(indices, 0, BASE_TYPE, defs).value, ExactDelta(indices, 0, BASE_TYPE, defs).value;
    var x := if OutOfBounds(size, offset + d, len) then e else d;
    assert x == d ==> Shows(x) by { Residue(n, t); }
    assert -offset <= x <= size - len - offset && Shows(x);
  }

  lemma Residue(n: nat, t: nat)
    requires n >= 1
    ensures Shows(n * MAX + 4 * t)
  {
    assert n * MAX + 4 * t == 4 * (n * 0x4000_0000_0000_0000 + t) - n;
  }

  // ------------------------------------------------------------ index lists on demand

  function Index(n: U64): Operand { Const(IntConst(64, n), IntegerType(64)) }

  /** A zero first index, then `ns`. */
  function Indices(ns: seq<U64>): seq<Operand> {
    seq(|ns| + 1, i requires 0 <= i <= |ns| => if i == 0 then Index(0) else Index(ns[i - 1]))
  }

  function SatSum(ns: seq<U64>): nat {
    if ns == [] then 0 else SaturatingMul(ns[0], 4) + SatSum(ns[1..])
  }

  function ExactSum(ns: seq<U64>): nat {
    if ns == [] then 0 else ns[0] * 4 + ExactSum(ns[1..])
  }

  lemma {:induction false} TailSums(ns: seq<U64>, i: nat, defs: Defs)
    requires Acyclic(defs) && i <= |ns|
    ensures Delta(Indices(ns), i + 1, BASE_TYPE, defs) == Some(SatSum(ns[i..]))
    ensures ExactDelta(Indices(ns), i + 1, BASE_TYPE, defs) == Some(ExactSum(ns[i..]))
    decreases |ns| - i
  {
    hide SaturatingMul;
    if i < |ns| {
      TailSums(ns, i + 1, defs);
      assert ns[i..][1..] == ns[i + 1..];
    }
  }

  lemma {:induction false} Sums(ns: seq<U64>, defs: Defs)
    requires Acyclic(defs)
    ensures Delta(Indices(ns), 0, BASE_TYPE, defs) == Some(SatSum(ns))
    ensures ExactDelta(Indices(ns), 0, BASE_TYPE, defs) == Some(ExactSum(ns))
  {
    TailSums(ns, 0, defs);
    assert ns[0..] == ns;
    assert Indices(ns)[0] == Index(0) && SaturatingMul(0, 8) == 0;
  }

  lemma {:induction false} SumsConcat(a: seq<U64>, b: seq<U64>)
    ensures SatSum(a + b) == SatSum(a) + SatSum(b) && ExactSum(a + b) == ExactSum(a) + ExactSum(b)
  {
    hide SaturatingMul;
    if a == [] {
      assert a + b == b;
    } else {
      assert (a + b)[1..] == a[1..] + b;
      SumsConcat(a[1..], b);
    }
  }

  /** Indices that move by `4 * t` bytes without saturating. */
  function Fill(t: nat): (ns: seq<U64>)
    ensures SatSum(ns) == 4 * t && ExactSum(ns) == 4 * t
  {
    var most: U64 := 0x3FFF_FFFF_FFFF_FFFF;
    if t <= most then
      assert [t as U64][1..] == [];
      [t]
    else
      var rest := Fill(t - most);
      assert ([most] + rest)[1..] == rest;
      [most] + rest
  }

  /** `n` products that saturate as far apart as they can, then `4 * t` bytes more. */
  lemma {:induction false} Reach(n: nat, t: nat) returns (ns: seq<U64>)
    requires n <= 3
    ensures SatSum(ns) == n * MAX + 4 * t && ExactSum(ns) == 4 * n * MAX + 4 * t
  {
    if n == 0 {
      ns := Fill(t);
    } else {
      var rest := Reach(n - 1, t);
      ns := [MAX] + rest;
      assert ns[1..] == rest;
    }
  }

  // ------------------------------------------------------------ the condition is exact

  lemma {:induction false} UseList(ns: seq<U64>, offset: int, size: U64, len: nat, defs: Defs)
    requires Acyclic(defs)
    requires OutOfBounds(size, offset + SatSum(ns), len) <==> !OutOfBounds(size, offset + ExactSum(ns), len)
    ensures Separates(Indices(ns), offset, size, len, defs)
  {
    Sums(ns, defs);
  }

  /** The saturating rule lands in bounds at distance `x`, the exact rule far above. */
  lemma {:induction false} ReachBySaturation(x: int, offset: int, size: U64, len: nat, defs: Defs) returns (indices: seq<Operand>)
    requires Acyclic(defs) && -offset <= x <= size - len - offset && Shows(x) && x % 4 != 0
    ensures Separates(indices, offset, size, len, defs)
  {
    var n := 4 - x % 4;
    assert (x - n * MAX) % 4 == 0 by {
      assert x - n * MAX == 4 * (x / 4 - n * 0x4000_0000_0000_0000) + 4;
    }
    var ns := Reach(n, (x - n * MAX) / 4);
    UseList(ns, offset, size, len, defs);
    indices := Indices(ns);
  }

  /** The exact rule lands in bounds at distance `x`, the saturating rule below. */
  lemma {:induction false} ReachExactly(x: int, offset: int, size: U64, len: nat, defs: Defs) returns (indices: seq<Operand>)
    requires Acyclic(defs) && -offset <= x <= size - len - offset && Shows(x) && x % 4 == 0 && -offset > MAX
    ensures Separates(indices, offset, size, len, defs)
  {
    var ns: seq<U64>;
    if x <= 4 * MAX {
      ns := [x / 4];
      assert ns[1..] == [];
    } else {
      assert (x - 4 * MAX) % 4 == 0;
      ns := Reach(1, (x - 4 * MAX) / 4);
    }
    UseList(ns, offset, size, len, defs);
    indices := Indices(ns);
  }

  /**
   For every offset, allocation and access: some index list is decided differently by saturating
   and by exact products if and only if an in-bounds position lies at a distance that shows it.
   */
  lemma {:induction false} SaturationMattersIff(offset: int, size: U64, len: nat, defs: Defs)
    requires Acyclic(defs)
    ensures (exists indices :: Separates(indices, offset, size, len, defs)) <==> Exposed(offset, size, len)
  {
    hide Separates;
    forall indices | Separates(indices, offset, size, len, defs) ensures Exposed(offset, size, len) {
      SeparatedIsExposed(indices, offset, size, len, defs);
    }
    if Exposed(offset, size, len) {
      var x :| -offset <= x <= size - len - offset && Shows(x);
      var indices: seq<Operand>;
      if x % 4 != 0 {
        indices := ReachBySaturation(x, offset, size, len, defs);
      } else if -offset > MAX {
        indices := ReachExactly(x, offset, size, len, defs);
      } else {
        indices := ReachBySaturation(MAX, offset, size, len, defs);
      }
    }
  }
}
