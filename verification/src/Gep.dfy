/** Byte offsets of `getelementptr`, by the analyzer's own rule. */
module Gep {
  import opened Common
  import opened Types
  import opened TypeSize
  import opened Ir

  /** Bytes one unit of an index moves: the first index by the base, every later one by four. */
  function Stride(first: bool, baseTy: Type, defs: Defs): Option<U64>
    requires Acyclic(defs)
  {
    if !first then Some(4) else if baseTy.PointerType? then Some(8) else SizeOf(baseTy, defs)
  }

  /** Bytes moved by the indices from position `i` on, products saturating at `u64::MAX`. */
  function Delta(indices: seq<Operand>, i: nat, baseTy: Type, defs: Defs): Option<nat>
    requires Acyclic(defs) && i <= |indices|
    decreases |indices| - i
  {
    if i == |indices| then Some(0) else
    var v, stride, rest := ConstU64(indices[i]), Stride(i == 0, baseTy, defs), Delta(indices, i + 1, baseTy, defs);
    if v.Some? && stride.Some? && rest.Some?
    then Some(SaturatingMul(v.value, stride.value) + rest.value)
    else None
  }

  /** `infer_gep_offset` */
  function GepOffset(base: Operand, indices: seq<Operand>, offset: int, defs: Defs): Option<int>
    requires Acyclic(defs)
  {
    var d := Delta(indices, 0, TypeOf(base), defs);
    if d.Some? then Some(offset + d.value) else None
  }

  /** `infer_gep_offset` as written: an accumulator and an early exit. */
  method InferGepOffset(base: Operand, indices: seq<Operand>, offset: int, defs: Defs) returns (r: Option<int>)
    requires Acyclic(defs)
    ensures r == GepOffset(base, indices, offset, defs)
  {
    hide SizeOf;
    hide SaturatingMul;
    var computed := offset;
    for i := 0 to |indices|
      invariant var all, rest := Delta(indices, 0, TypeOf(base), defs), Delta(indices, i, TypeOf(base), defs);
        && all.Some? == rest.Some?
        && (all.Some? ==> offset + all.value == computed + rest.value)
    {
      var v := ConstU64(indices[i]);
      if v.None? {
        return None;
      }
      if i == 0 {
        var stride := Some(8);
        if !TypeOf(base).PointerType? {
          stride := ComputeSize(TypeOf(base), defs);
        }
        if stride.None? {
          return None;
        }
        computed := computed + SaturatingMul(v.value, stride.value);
        continue;
      }
      computed := computed + SaturatingMul(v.value, 4);
    }
    return Some(computed);
  }

  // ------------------------------------------------------------ saturation

  /** As `Delta`, with exact products. */
  function ExactDelta(indices: seq<Operand>, i: nat, baseTy: Type, defs: Defs): Option<nat>
    requires Acyclic(defs) && i <= |indices|
    decreases |indices| - i
  {
    if i == |indices| then Some(0) else
    var v, stride, rest := ConstU64(indices[i]), Stride(i == 0, baseTy, defs), ExactDelta(indices, i + 1, baseTy, defs);
    if v.Some? && stride.Some? && rest.Some?
    then Some(v.value * stride.value + rest.value)
    else None
  }

  /** The condition `check_access` hands to the solver. */
  predicate OutOfBounds(size: nat, offset: int, len: nat) {
    offset + len > size || offset < 0
  }

  lemma {:induction false} DeltaOrHuge(indices: seq<Operand>, i: nat, baseTy: Type, defs: Defs)
    requires Acyclic(defs) && i <= |indices|
    ensures var d, e := Delta(indices, i, baseTy, defs), ExactDelta(indices, i, baseTy, defs);
      && d.Some? == e.Some?
      && (d.Some? ==> d == e || (d.value >= U64_LIMIT - 1 && e.value >= U64_LIMIT - 1))
    decreases |indices| - i
  {
    if i < |indices| {
      DeltaOrHuge(indices, i + 1, baseTy, defs);
    }
  }

  /**
   Saturating products decide an access the way exact products would, whatever the indices, when
   one more largest product already leaves the allocation; from a non-negative offset it always does.
   */
  lemma {:induction false} SaturationIsHarmless(base: Operand, indices: seq<Operand>, offset: int, size: U64, len: nat, defs: Defs)
    requires Acyclic(defs) && ((offset >= 0 && len >= 1) || offset + (U64_LIMIT - 1) + len > size)
    requires GepOffset(base, indices, offset, defs).Some?
    ensures ExactDelta(indices, 0, TypeOf(base), defs).Some?
    ensures OutOfBounds(size, GepOffset(base, indices, offset, defs).value, len)
       <==> OutOfBounds(size, offset + ExactDelta(indices, 0, TypeOf(base), defs).value, len)
  {
    DeltaOrHuge(indices, 0, TypeOf(base), defs);
  }
}
