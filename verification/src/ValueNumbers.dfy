/**
 The name of every value of a function, computed from its place alone: which values get one, and
 which number an unnamed one gets.
 */
module ValueNumbers {
  import opened Common
  import opened Ir
  import opened Numbering

  function Bit(c: bool): nat { if c then 1 else 0 }

  /** Only an invoke, a catchswitch or a callbr is a terminator with a result. */
  predicate TermResult(t: Term) { t.op in {InvokeOp, CatchSwitchOp, CallBrOp} }

  /** Only a call of void type, a store and a fence have no result. */
  predicate InstResult(i: Inst) { i.op !in {CallOp(true), StoreOp, FenceOp} }

  // ------------------------------------------------------------ how many numbers are used up

  function BlankParams(ps: seq<string>, n: nat): nat
    requires n <= |ps|
  {
    if n == 0 then 0 else BlankParams(ps, n - 1) + Bit(ps[n - 1] == "")
  }

  function BlankInsts(insts: seq<Inst>, n: nat): nat
    requires n <= |insts|
  {
    if n == 0 then 0 else BlankInsts(insts, n - 1) + Bit(insts[n - 1].name == "" && InstResult(insts[n - 1]))
  }

  /** The numbers a block uses: for itself, its instructions and its terminator. */
  function InBlock(k: Block): nat {
    Bit(k.name == "") + BlankInsts(k.insts, |k.insts|) + Bit(k.term.name == "" && TermResult(k.term))
  }

  function InBlocks(ks: seq<Block>, n: nat): nat
    requires n <= |ks|
  {
    if n == 0 then 0 else InBlocks(ks, n - 1) + InBlock(ks[n - 1])
  }

  /** The place is one of the function. */
  predicate IsPlace(f: Body, p: Place) {
    match p
    case ParamAt(i) => i < |f.params|
    case BlockAt(b) => b < |f.blocks|
    case InstAt(b, i) => b < |f.blocks| && i < |f.blocks[b].insts|
    case TermAt(b) => b < |f.blocks|
  }

  function TextAt(f: Body, p: Place): string
    requires IsPlace(f, p)
  {
    match p
    case ParamAt(i) => f.params[i]
    case BlockAt(b) => f.blocks[b].name
    case InstAt(b, i) => f.blocks[b].insts[i].name
    case TermAt(b) => f.blocks[b].term.name
  }

  function BlockStart(f: Body, b: nat): nat
    requires b < |f.blocks|
  {
    BlankParams(f.params, |f.params|) + InBlocks(f.blocks, b)
  }

  /** How many numbers the values before a place use. */
  function NumberAt(f: Body, p: Place): nat
    requires IsPlace(f, p)
  {
    match p
    case ParamAt(i) => BlankParams(f.params, i)
    case BlockAt(b) => BlockStart(f, b)
    case InstAt(b, i) => BlockStart(f, b) + Bit(f.blocks[b].name == "") + BlankInsts(f.blocks[b].insts, i)
    case TermAt(b) =>
      BlockStart(f, b) + Bit(f.blocks[b].name == "") + BlankInsts(f.blocks[b].insts, |f.blocks[b].insts|)
  }

  /** The values a pass names; the first also takes what has a string without a result. */
  predicate GetsName(first: bool, f: Body, p: Place) {
    && IsPlace(f, p)
    && (p.InstAt? ==> InstResult(f.blocks[p.b].insts[p.i]) || (first && TextAt(f, p) != ""))
    && (p.TermAt? ==> TermResult(f.blocks[p.b].term) || (first && TextAt(f, p) != ""))
  }

  // ------------------------------------------------------------ the walk uses up the same numbers

  lemma {:induction false} UnnamedConcat(a: seq<Slot>, b: seq<Slot>)
    ensures Unnamed(a + b) == Unnamed(a) + Unnamed(b)
  {
    if b == [] {
      assert a + b == a;
    } else {
      var last := |b| - 1;
      assert (a + b)[..|a + b| - 1] == a + b[..last];
      UnnamedConcat(a, b[..last]);
    }
  }

  /** A prefix of `a + b` that is cut inside `b`. */
  lemma {:induction false} CutInside(a: seq<Slot>, b: seq<Slot>, k: nat)
    requires |a| <= k <= |a| + |b|
    ensures Unnamed((a + b)[..k]) == Unnamed(a) + Unnamed(b[..k - |a|])
  {
    assert (a + b)[..k] == a + b[..k - |a|];
    UnnamedConcat(a, b[..k - |a|]);
  }

  lemma CutBefore(a: seq<Slot>, b: seq<Slot>, k: nat)
    requires k <= |a|
    ensures (a + b)[..k] == a[..k]
  {
  }

  lemma OneSlot(x: Slot)
    ensures Unnamed([x]) == Bit(x.text == "") && Unnamed([]) == 0
  {
    assert [x][..0] == [];
  }

  lemma {:induction false} ParamCount(ps: seq<string>, i: nat, k: nat)
    requires i <= |ps| && k <= |ParamSlots(ps, i)|
    ensures |ParamSlots(ps, i)| == |ps| - i
    ensures Unnamed(ParamSlots(ps, i)[..k]) == BlankParams(ps, i + k) - BlankParams(ps, i)
    ensures k < |ps| - i ==> ParamSlots(ps, i)[k].at == ParamAt(i + k)
    decreases |ps| - i
  {
    if i == |ps| {
    } else {
      var x, rest := Slot(ParamAt(i), ps[i]), ParamSlots(ps, i + 1);
      ParamCount(ps, i + 1, if k == 0 then 0 else k - 1);
      OneSlot(x);
      if k > 0 {
        CutInside([x], rest, k);
      }
    }
  }

  /** What the walk adds at one instruction. */
  function Head(first: bool, b: nat, insts: seq<Inst>, i: nat): seq<Slot>
    requires i < |insts|
  {
    if Visits(first, insts[i]) then [Slot(InstAt(b, i), insts[i].name)] else []
  }

  lemma {:induction false} HeadCount(first: bool, b: nat, insts: seq<Inst>, i: nat)
    requires i < |insts|
    ensures Unnamed(Head(first, b, insts, i)) == BlankInsts(insts, i + 1) - BlankInsts(insts, i)
    ensures InstSlots(first, b, insts, i) == Head(first, b, insts, i) + InstSlots(first, b, insts, i + 1)
  {
    OneSlot(Slot(InstAt(b, i), insts[i].name));
  }

  lemma {:induction false} InstCount(first: bool, b: nat, insts: seq<Inst>, i: nat, slots: seq<Slot>)
    requires i <= |insts| && slots == InstSlots(first, b, insts, i)
    ensures Unnamed(slots) == BlankInsts(insts, |insts|) - BlankInsts(insts, i)
    decreases |insts| - i
  {
    hide Visits;
    if i < |insts| {
      var rest := InstSlots(first, b, insts, i + 1);
      InstCount(first, b, insts, i + 1, rest);
      HeadCount(first, b, insts, i);
      UnnamedConcat(Head(first, b, insts, i), rest);
    }
  }

  lemma {:induction false} InstNumber(first: bool, b: nat, insts: seq<Inst>, i: nat, slots: seq<Slot>, k: nat)
    requires i <= |insts| && slots == InstSlots(first, b, insts, i) && k < |slots|
    ensures slots[k].at.InstAt? && slots[k].at.b == b && i <= slots[k].at.i < |insts|
    ensures Unnamed(slots[..k]) == BlankInsts(insts, slots[k].at.i) - BlankInsts(insts, i)
    decreases |insts| - i
  {
    hide Visits;
    hide BlankInsts;
    var head, rest := Head(first, b, insts, i), InstSlots(first, b, insts, i + 1);
    HeadCount(first, b, insts, i);
    if k < |head| {
      assert slots[..k] == [];
    } else {
      assert slots[k] == rest[k - |head|];
      hide InstSlots;
      hide Unnamed;
      InstNumber(first, b, insts, i + 1, rest, k - |head|);
      CutInside(head, rest, k);
    }
  }

  lemma ZeroInsts(insts: seq<Inst>)
    ensures BlankInsts(insts, 0) == 0
  {
  }

  lemma {:induction false} TermCount(first: bool, b: nat, t: Term)
    ensures Unnamed(TermSlots(first, b, t)) == Bit(t.name == "" && TermResult(t))
    ensures forall k :: 0 <= k < |TermSlots(first, b, t)| ==> k == 0 && TermSlots(first, b, t)[k].at == TermAt(b)
  {
    OneSlot(Slot(TermAt(b), t.name));
  }

  lemma {:induction false} BlockCount(first: bool, b: nat, n: Block)
    ensures Unnamed(BlockSlots(first, b, n)) == InBlock(n)
  {
    var head, insts, term := Slot(BlockAt(b), n.name), InstSlots(first, b, n.insts, 0), TermSlots(first, b, n.term);
    OneSlot(head);
    TermCount(first, b, n.term);
    InstCount(first, b, n.insts, 0, insts);
    ZeroInsts(n.insts);
    hide Unnamed;
    hide InstSlots;
    hide TermSlots;
    UnnamedConcat([head], insts);
    UnnamedConcat([head] + insts, term);
  }

  /** The numbers used before slot `k` of a block. */
  lemma {:induction false} BlockNumber(first: bool, f: Body, b: nat, slots: seq<Slot>, k: nat)
    requires b < |f.blocks| && slots == BlockSlots(first, b, f.blocks[b]) && k < |slots|
    ensures IsPlace(f, slots[k].at) && BlockStart(f, b) + Unnamed(slots[..k]) == NumberAt(f, slots[k].at)
  {
    var n := f.blocks[b];
    var head, insts, term := Slot(BlockAt(b), n.name), InstSlots(first, b, n.insts, 0), TermSlots(first, b, n.term);
    OneSlot(head);
    ZeroInsts(n.insts);
    hide InstSlots;
    hide TermSlots;
    hide Unnamed;
    hide BlankInsts;
    hide BlockStart;
    if k == 0 {
      assert slots[..0] == [];
    } else if k < 1 + |insts| {
      InstNumber(first, b, n.insts, 0, insts, k - 1);
      CutBefore([head] + insts, term, k);
      CutInside([head], insts, k);
      assert slots[k] == insts[k - 1];
    } else {
      TermCount(first, b, n.term);
      InstCount(first, b, n.insts, 0, insts);
      UnnamedConcat([head], insts);
      CutInside([head] + insts, term, k);
      assert slots[k] == term[0] && term[..0] == [];
    }
  }

  lemma {:induction false} BlocksNumber(first: bool, f: Body, b: nat, slots: seq<Slot>, k: nat)
    requires b <= |f.blocks| && slots == BlocksSlots(first, f.blocks, b)
    ensures Unnamed(slots) == InBlocks(f.blocks, |f.blocks|) - InBlocks(f.blocks, b)
    ensures k < |slots| ==> IsPlace(f, slots[k].at)
    ensures k < |slots| ==>
      BlankParams(f.params, |f.params|) + InBlocks(f.blocks, b) + Unnamed(slots[..k]) == NumberAt(f, slots[k].at)
    decreases |f.blocks| - b
  {
    hide BlockSlots;
    hide InBlock;
    if b < |f.blocks| {
      var mine, rest := BlockSlots(first, b, f.blocks[b]), BlocksSlots(first, f.blocks, b + 1);
      BlockCount(first, b, f.blocks[b]);
      BlocksNumber(first, f, b + 1, rest, if k < |mine| then 0 else k - |mine|);
      UnnamedConcat(mine, rest);
      if k < |mine| {
        BlockNumber(first, f, b, mine, k);
        CutBefore(mine, rest, k);
      } else if k < |slots| {
        CutInside(mine, rest, k);
      }
    }
  }

  lemma {:induction false} AllParams(ps: seq<string>)
    ensures |ParamSlots(ps, 0)| == |ps| && Unnamed(ParamSlots(ps, 0)) == BlankParams(ps, |ps|)
  {
    var slots := ParamSlots(ps, 0);
    ParamCount(ps, 0, |slots|);
    assert slots[..|slots|] == slots;
  }

  /** Either pass uses up the numbers of all parameters and blocks. */
  lemma {:induction false} AllNumbers(first: bool, f: Body)
    ensures Unnamed(Slots(first, f)) == BlankParams(f.params, |f.params|) + InBlocks(f.blocks, |f.blocks|)
  {
    hide BlocksSlots;
    hide ParamSlots;
    AllParams(f.params);
    BlocksNumber(first, f, 0, BlocksSlots(first, f.blocks, 0), 0);
    UnnamedConcat(ParamSlots(f.params, 0), BlocksSlots(first, f.blocks, 0));
  }

  /** Either pass gives slot `k` the number of its place. */
  lemma {:induction false} SlotNumber(first: bool, f: Body, k: nat)
    requires k < |Slots(first, f)|
    ensures IsPlace(f, Slots(first, f)[k].at)
    ensures Unnamed(Slots(first, f)[..k]) == NumberAt(f, Slots(first, f)[k].at)
  {
    hide BlocksSlots;
    hide ParamSlots;
    hide Unnamed;
    var ps, bs := ParamSlots(f.params, 0), BlocksSlots(first, f.blocks, 0);
    AllParams(f.params);
    if k < |ps| {
      ParamCount(f.params, 0, k);
      CutBefore(ps, bs, k);
    } else {
      BlocksNumber(first, f, 0, bs, k - |ps|);
      CutInside(ps, bs, k);
    }
  }

  // ------------------------------------------------------------ the names

  lemma {:induction false} NamedIff(first: bool, f: Body, names: map<Place, Name>, p: Place)
    requires NamedBy(names, Slots(first, f))
    ensures p in names <==> GetsName(first, f, p)
  {
    hide Slots;
    var slots := Slots(first, f);
    if p in names {
      var k :| 0 <= k < |slots| && slots[k].at == p;
      SlotsAreExact(first, f, slots[k]);
    }
    if GetsName(first, f, p) {
      var x := Slot(p, TextAt(f, p));
      SlotsAreExact(first, f, x);
      var k :| 0 <= k < |slots| && slots[k] == x;
    }
  }

  /**
   A pass names exactly the values with a result (the first also those with a string), by their
   string or else by the number of unnamed values with a result before them.
   */
  lemma {:induction false} NamesByPlace(first: bool, f: Body, names: map<Place, Name>)
    requires NamedBy(names, Slots(first, f))
    ensures forall p :: p in names <==> GetsName(first, f, p)
    ensures forall p :: GetsName(first, f, p) ==>
      p in names && names[p] == if TextAt(f, p) == "" then Number(NumberAt(f, p)) else Named(TextAt(f, p))
    ensures Unnamed(Slots(first, f)) == BlankParams(f.params, |f.params|) + InBlocks(f.blocks, |f.blocks|)
  {
    AllNumbers(first, f);
    forall p ensures p in names <==> GetsName(first, f, p) {
      NamedIff(first, f, names, p);
    }
    forall p | p in names
      ensures names[p] == if TextAt(f, p) == "" then Number(NumberAt(f, p)) else Named(TextAt(f, p))
    {
      NameByPlace(first, f, names, p);
    }
  }

  lemma {:induction false} NameByPlace(first: bool, f: Body, names: map<Place, Name>, p: Place)
    requires NamedBy(names, Slots(first, f)) && p in names
    ensures IsPlace(f, p)
    ensures names[p] == if TextAt(f, p) == "" then Number(NumberAt(f, p)) else Named(TextAt(f, p))
  {
    hide Slots;
    hide NumberAt;
    var slots := Slots(first, f);
    var k :| 0 <= k < |slots| && slots[k].at == p;
    SlotNumber(first, f, k);
    SlotsAreExact(first, f, slots[k]);
  }
}
