/**
 The two passes that name the values of a function: the first collects names before anything is
 parsed, the second names again while parsing.
 */
module Numbering {
  import opened Common
  import opened Ir

  // ------------------------------------------------------------ function bodies

  /** The opcodes that matter for naming. */
  datatype Opcode = StoreOp | FenceOp | CallOp(isVoid: bool) | OtherOp

  datatype TermOp = InvokeOp | CatchSwitchOp | CallBrOp | OtherTermOp

  /** An instruction with its string name, which may be empty. */
  datatype Inst = Inst(name: string, op: Opcode)

  datatype Term = Term(name: string, op: TermOp)

  datatype Block = Block(name: string, insts: seq<Inst>, term: Term)

  datatype Body = Body(params: seq<string>, blocks: seq<Block>)

  /** `Name::name_or_num`: the name and the next counter. */
  function NameOrNum(s: string, ctr: nat): (Name, nat) {
    if s == "" then (Number(ctr), ctr + 1) else (Named(s), ctr)
  }

  /** `needs_name` */
  predicate NeedsName(i: Inst) {
    i.name != "" ||
    match i.op
    case StoreOp => false
    case FenceOp => false
    case CallOp(isVoid) => !isVoid
    case OtherOp => true
  }

  /** `term_needs_name` */
  predicate TermNeedsName(t: Term) { t.name != "" || !t.op.OtherTermOp? }

  /** Whether the second pass gives the instruction a destination. */
  predicate HasDest(i: Inst) {
    match i.op
    case StoreOp => false
    case FenceOp => false
    case CallOp(isVoid) => !isVoid
    case OtherOp => true
  }

  predicate TermHasDest(t: Term) { !t.op.OtherTermOp? }

  // ------------------------------------------------------------ splitting a block

  /** `AllButLastIterator`: hands out an item only when another one follows it. */
  class AllButLastIterator<T> {
    var rest: seq<T>

    constructor (items: seq<T>)
      ensures rest == items
    {
      rest := items;
    }

    method Next() returns (r: Option<T>)
      modifies this
      ensures |old(rest)| >= 2 ==> r == Some(old(rest)[0]) && rest == old(rest)[1..]
      ensures |old(rest)| < 2 ==> r == None && rest == []
    {
      if rest == [] {
        return None;
      }
      var item := rest[0];
      rest := rest[1..];
      r := if rest != [] then Some(item) else None;
    }
  }

  /** Draining `all_but_last` leaves out exactly the terminator. */
  method AllButLast<T>(items: seq<T>) returns (r: seq<T>)
    ensures r == if items == [] then [] else items[..|items| - 1]
  {
    var it := new AllButLastIterator(items);
    r := [];
    var x := it.Next();
    while x.Some?
      invariant x.Some? ==> r + [x.value] + it.rest == items && it.rest != []
      invariant x.None? ==> r == (if items == [] then [] else items[..|items| - 1])
      decreases x.Some?, |it.rest|
    {
      r := r + [x.value];
      assert r + it.rest == items;
      x := it.Next();
    }
  }

  /** An entry of LLVM's instruction list; a well-formed block ends in its one terminator. */
  datatype Item = InstItem(inst: Inst) | TermItem(term: Term)

  datatype RawBlock = RawBlock(name: string, items: seq<Item>)

  datatype RawBody = RawBody(params: seq<string>, blocks: seq<RawBlock>)

  predicate WellFormed(raw: RawBlock) {
    && raw.items != [] && raw.items[|raw.items| - 1].TermItem?
    && forall i :: 0 <= i < |raw.items| - 1 ==> raw.items[i].InstItem?
  }

  predicate WellFormedBody(raw: RawBody) {
    forall b :: 0 <= b < |raw.blocks| ==> WellFormed(raw.blocks[b])
  }

  function InstsOf(items: seq<Item>): seq<Inst>
    requires forall i :: 0 <= i < |items| ==> items[i].InstItem?
  {
    seq(|items|, i requires 0 <= i < |items| => items[i].inst)
  }

  function BlockOf(raw: RawBlock): Block
    requires WellFormed(raw)
  {
    var last := |raw.items| - 1;
    Block(raw.name, InstsOf(raw.items[..last]), raw.items[last].term)
  }

  function BodyOf(raw: RawBody): Body
    requires WellFormedBody(raw)
  {
    Body(raw.params, seq(|raw.blocks|, b requires 0 <= b < |raw.blocks| => BlockOf(raw.blocks[b])))
  }

  // ------------------------------------------------------------ positions and numbers

  /** Where a name belongs: a parameter, a block, an instruction, or a terminator. */
  datatype Place = ParamAt(i: nat) | BlockAt(b: nat) | InstAt(b: nat, i: nat) | TermAt(b: nat)

  /** A place and the string its value carries. */
  datatype Slot = Slot(at: Place, text: string)

  function ParamSlots(ps: seq<string>, i: nat): seq<Slot>
    requires i <= |ps|
    decreases |ps| - i
  {
    if i == |ps| then [] else [Slot(ParamAt(i), ps[i])] + ParamSlots(ps, i + 1)
  }

  /** The first pass names what needs a name, the second what has a destination. */
  predicate Visits(first: bool, i: Inst) { if first then NeedsName(i) else HasDest(i) }

  predicate VisitsTerm(first: bool, t: Term) { if first then TermNeedsName(t) else TermHasDest(t) }

  function InstSlots(first: bool, b: nat, insts: seq<Inst>, i: nat): seq<Slot>
    requires i <= |insts|
    decreases |insts| - i
  {
    if i == |insts| then []
    else (if Visits(first, insts[i]) then [Slot(InstAt(b, i), insts[i].name)] else []) + InstSlots(first, b, insts, i + 1)
  }

  function TermSlots(first: bool, b: nat, t: Term): seq<Slot> {
    if VisitsTerm(first, t) then [Slot(TermAt(b), t.name)] else []
  }

  function BlockSlots(first: bool, b: nat, k: Block): seq<Slot> {
    [Slot(BlockAt(b), k.name)] + InstSlots(first, b, k.insts, 0) + TermSlots(first, b, k.term)
  }

  function BlocksSlots(first: bool, ks: seq<Block>, b: nat): seq<Slot>
    requires b <= |ks|
    decreases |ks| - b
  {
    if b == |ks| then [] else BlockSlots(first, b, ks[b]) + BlocksSlots(first, ks, b + 1)
  }

  /** Everything a pass names, in program order. */
  function Slots(first: bool, f: Body): seq<Slot> { ParamSlots(f.params, 0) + BlocksSlots(first, f.blocks, 0) }

  /** How many of the slots carry no string. */
  function Unnamed(slots: seq<Slot>): nat {
    if slots == [] then 0
    else Unnamed(slots[..|slots| - 1]) + (if slots[|slots| - 1].text == "" then 1 else 0)
  }

  /**
   The numbering rule: a string names its slot; the unnamed slots get consecutive numbers in
   program order.
   */
  function NameAt(slots: seq<Slot>, k: nat): Name
    requires k < |slots|
  {
    if slots[k].text == "" then Number(Unnamed(slots[..k])) else Named(slots[k].text)
  }

  /** The names by place that the rule gives to the first `n` slots. */
  ghost predicate NamedBy(names: map<Place, Name>, slots: seq<Slot>) {
    && (forall k :: 0 <= k < |slots| ==> slots[k].at in names && names[slots[k].at] == NameAt(slots, k))
    && (forall p :: p in names ==> exists k :: 0 <= k < |slots| && slots[k].at == p)
  }

  predicate DistinctPlaces(slots: seq<Slot>) {
    forall j, k :: 0 <= j < k < |slots| ==> slots[j].at != slots[k].at
  }

  lemma {:induction false} UnnamedSnoc(slots: seq<Slot>, x: Slot)
    ensures Unnamed(slots + [x]) == Unnamed(slots) + (if x.text == "" then 1 else 0)
  {
    assert (slots + [x])[..|slots|] == slots;
  }

  lemma {:induction false} NameAtPrefix(slots: seq<Slot>, x: Slot, k: nat)
    requires k < |slots|
    ensures NameAt(slots + [x], k) == NameAt(slots, k)
  {
    assert (slots + [x])[..k] == slots[..k];
  }

  /** One more value named with the counter that has been passed along. */
  lemma {:induction false} NameOneMore(names: map<Place, Name>, slots: seq<Slot>, x: Slot)
    requires NamedBy(names, slots) && DistinctPlaces(slots + [x])
    ensures var (n, ctr) := NameOrNum(x.text, Unnamed(slots));
      NamedBy(names[x.at := n], slots + [x]) && ctr == Unnamed(slots + [x])
  {
    var t := slots + [x];
    var (n, ctr) := NameOrNum(x.text, Unnamed(slots));
    var m := names[x.at := n];
    UnnamedSnoc(slots, x);
    assert t[..|slots|] == slots && t[|slots|] == x;
    forall k | 0 <= k < |t| ensures t[k].at in m && m[t[k].at] == NameAt(t, k) {
      if k < |slots| {
        assert t[k] == slots[k] && t[k].at != x.at;
        NameAtPrefix(slots, x, k);
      }
    }
    forall p | p in m ensures exists k :: 0 <= k < |t| && t[k].at == p {
      if p == x.at {
        assert t[|slots|].at == p;
      } else {
        var k :| 0 <= k < |slots| && slots[k].at == p;
        assert t[k].at == p;
      }
    }
  }

  // ------------------------------------------------------------ the rule numbers 0 .. n-1

  /** The unnamed slots receive exactly 0, 1, ..., n-1 in program order, each once. */
  lemma {:induction false} NumbersAreConsecutive(slots: seq<Slot>, n: nat)
    requires n < Unnamed(slots)
    ensures exists k :: 0 <= k < |slots| && NameAt(slots, k) == Number(n)
  {
    var last := |slots| - 1;
    var before := slots[..last];
    assert slots == before + [slots[last]];
    if n < Unnamed(before) {
      NumbersAreConsecutive(before, n);
      var k :| 0 <= k < |before| && NameAt(before, k) == Number(n);
      NameAtPrefix(before, slots[last], k);
      assert NameAt(slots, k) == Number(n);
    } else {
      assert NameAt(slots, last) == Number(n);
    }
  }

  lemma {:induction false} UnnamedGrows(slots: seq<Slot>, j: nat, k: nat)
    requires j <= k <= |slots|
    ensures Unnamed(slots[..j]) <= Unnamed(slots[..k])
    decreases k - j
  {
    if j < k {
      UnnamedGrows(slots, j, k - 1);
      assert slots[..k] == slots[..k - 1] + [slots[k - 1]];
      UnnamedSnoc(slots[..k - 1], slots[k - 1]);
    }
  }

  lemma {:induction false} NumbersIncrease(slots: seq<Slot>, j: nat, k: nat)
    requires j < k < |slots| && slots[j].text == "" && slots[k].text == ""
    ensures NameAt(slots, j).n < NameAt(slots, k).n < Unnamed(slots)
  {
    assert slots[..j + 1] == slots[..j] + [slots[j]];
    UnnamedSnoc(slots[..j], slots[j]);
    UnnamedGrows(slots, j + 1, k);
    assert slots[..k + 1] == slots[..k] + [slots[k]];
    UnnamedSnoc(slots[..k], slots[k]);
    UnnamedGrows(slots, k + 1, |slots|);
    assert slots[..|slots|] == slots;
  }

  // ------------------------------------------------------------ places are distinct

  /** Parameters first, then block by block. */
  function Rank(p: Place): (nat, nat, nat) {
    match p
    case ParamAt(i) => (0, 0, i)
    case BlockAt(b) => (b + 1, 0, 0)
    case InstAt(b, i) => (b + 1, 1, i)
    case TermAt(b) => (b + 1, 2, 0)
  }

  predicate Before(p: Place, q: Place) {
    var a, b := Rank(p), Rank(q);
    a.0 < b.0 || (a.0 == b.0 && (a.1 < b.1 || (a.1 == b.1 && a.2 < b.2)))
  }

  predicate InOrder(slots: seq<Slot>) {
    forall j, k :: 0 <= j < k < |slots| ==> Before(slots[j].at, slots[k].at)
  }

  lemma {:induction false} ParamsInOrder(ps: seq<string>, i: nat, r: seq<Slot>)
    requires i <= |ps| && r == ParamSlots(ps, i)
    ensures InOrder(r) && forall k :: 0 <= k < |r| ==> r[k].at.ParamAt? && r[k].at.i >= i
    decreases |ps| - i
  {
    if i < |ps| {
      ParamsInOrder(ps, i + 1, ParamSlots(ps, i + 1));
    }
  }

  lemma {:induction false} InstsInOrder(first: bool, b: nat, insts: seq<Inst>, i: nat, r: seq<Slot>)
    requires i <= |insts| && r == InstSlots(first, b, insts, i)
    ensures InOrder(r) && forall k :: 0 <= k < |r| ==> r[k].at.InstAt? && r[k].at.b == b && r[k].at.i >= i
    decreases |insts| - i
  {
    hide Visits;
    if i < |insts| {
      InstsInOrder(first, b, insts, i + 1, InstSlots(first, b, insts, i + 1));
    }
  }

  lemma {:induction false} BlockInOrder(first: bool, b: nat, k: Block, r: seq<Slot>)
    requires r == BlockSlots(first, b, k)
    ensures InOrder(r) && forall j :: 0 <= j < |r| ==> Rank(r[j].at).0 == b + 1
  {
    hide VisitsTerm;
    InstsInOrder(first, b, k.insts, 0, InstSlots(first, b, k.insts, 0));
  }

  lemma {:induction false} BlocksInOrder(first: bool, ks: seq<Block>, b: nat, r: seq<Slot>)
    requires b <= |ks| && r == BlocksSlots(first, ks, b)
    ensures InOrder(r) && forall j :: 0 <= j < |r| ==> Rank(r[j].at).0 > b
    decreases |ks| - b
  {
    hide BlockSlots;
    if b < |ks| {
      BlockInOrder(first, b, ks[b], BlockSlots(first, b, ks[b]));
      BlocksInOrder(first, ks, b + 1, BlocksSlots(first, ks, b + 1));
    }
  }

  lemma {:induction false} SlotsDistinct(first: bool, f: Body)
    ensures DistinctPlaces(Slots(first, f))
  {
    hide BlocksSlots;
    ParamsInOrder(f.params, 0, ParamSlots(f.params, 0));
    BlocksInOrder(first, f.blocks, 0, BlocksSlots(first, f.blocks, 0));
    assert InOrder(Slots(first, f));
  }

  // ------------------------------------------------------------ the passes

  /** `FunctionDeclaration::from_llvm_ref_internal`: parameters come first. */
  method NameParams(ps: seq<string>) returns (names: map<Place, Name>, ctr: nat)
    ensures NamedBy(names, ParamSlots(ps, 0)) && ctr == Unnamed(ParamSlots(ps, 0))
  {
    hide NamedBy;
    hide NameOrNum;
    ghost var all := ParamSlots(ps, 0);
    ghost var done: seq<Slot> := [];
    ParamsInOrder(ps, 0, all);
    assert DistinctPlaces(all);
    hide DistinctPlaces;
    names, ctr := map[], 0;
    NothingNamed();
    for i := 0 to |ps|
      invariant all == done + ParamSlots(ps, i)
      invariant NamedBy(names, done) && ctr == Unnamed(done)
    {
      ghost var x := Slot(ParamAt(i), ps[i]);
      NameNext(names, done, x, ParamSlots(ps, i + 1));
      assert all == done + [x] + ParamSlots(ps, i + 1);
      var (n, next) := NameOrNum(ps[i], ctr);
      names, ctr, done := names[ParamAt(i) := n], next, done + [x];
    }
    assert all == done;
  }

  lemma NothingNamed()
    ensures NamedBy(map[], [])
  {
  }

  lemma DistinctPrefix(a: seq<Slot>, b: seq<Slot>)
    requires DistinctPlaces(a + b)
    ensures DistinctPlaces(a)
  {
    assert forall i :: 0 <= i < |a| ==> a[i] == (a + b)[i];
  }

  lemma {:induction false} NameNext(names: map<Place, Name>, done: seq<Slot>, x: Slot, rest: seq<Slot>)
    requires NamedBy(names, done)
    ensures done + [x] + rest == done + ([x] + rest)
    ensures var (n, ctr) := NameOrNum(x.text, Unnamed(done));
      DistinctPlaces(done + [x] + rest) ==> NamedBy(names[x.at := n], done + [x]) && ctr == Unnamed(done + [x])
  {
    hide NamedBy;
    if DistinctPlaces(done + [x] + rest) {
      DistinctPrefix(done + [x], rest);
      NameOneMore(names, done, x);
    }
  }

  /** The loop of `first_pass_names` over the instructions that need a name. */
  method FirstPassInsts(b: nat, insts: seq<Inst>, names0: map<Place, Name>, ctr0: nat, ghost done0: seq<Slot>)
    returns (names: map<Place, Name>, ctr: nat)
    requires NamedBy(names0, done0) && ctr0 == Unnamed(done0) && DistinctPlaces(done0 + InstSlots(true, b, insts, 0))
    ensures NamedBy(names, done0 + InstSlots(true, b, insts, 0)) && ctr == Unnamed(done0 + InstSlots(true, b, insts, 0))
  {
    hide NamedBy;
    hide Unnamed;
    hide NameOrNum;
    hide DistinctPlaces;
    hide NeedsName;
    ghost var all := done0 + InstSlots(true, b, insts, 0);
    ghost var done := done0;
    names, ctr := names0, ctr0;
    for i := 0 to |insts|
      invariant all == done + InstSlots(true, b, insts, i)
      invariant NamedBy(names, done) && ctr == Unnamed(done)
    {
      if NeedsName(insts[i]) {
        ghost var x := Slot(InstAt(b, i), insts[i].name);
        NameNext(names, done, x, InstSlots(true, b, insts, i + 1));
        assert all == done + [x] + InstSlots(true, b, insts, i + 1);
        var (n, c) := NameOrNum(insts[i].name, ctr);
        names, ctr, done := names[InstAt(b, i) := n], c, done + [x];
      }
    }
    assert all == done;
  }

  /** `first_pass_names`: the block, then the instructions, then the terminator. */
  method FirstPassBlock(b: nat, raw: RawBlock, names0: map<Place, Name>, ctr0: nat, ghost done0: seq<Slot>)
    returns (names: map<Place, Name>, ctr: nat)
    requires WellFormed(raw)
    requires NamedBy(names0, done0) && ctr0 == Unnamed(done0) && DistinctPlaces(done0 + BlockSlots(true, b, BlockOf(raw)))
    ensures NamedBy(names, done0 + BlockSlots(true, b, BlockOf(raw))) && ctr == Unnamed(done0 + BlockSlots(true, b, BlockOf(raw)))
  {
    hide NamedBy;
    hide Unnamed;
    hide NameOrNum;
    hide DistinctPlaces;
    hide InstSlots;
    var items := AllButLast(raw.items);
    var k := Block(raw.name, InstsOf(items), raw.items[|raw.items| - 1].term);
    assert k == BlockOf(raw);
    ghost var head := Slot(BlockAt(b), k.name);
    ghost var insts, term := InstSlots(true, b, k.insts, 0), TermSlots(true, b, k.term);
    ghost var all := done0 + BlockSlots(true, b, k);
    ghost var done := done0 + [head] + insts;
    assert all == done0 + [head] + (insts + term) == done + term;
    NameNext(names0, done0, head, insts + term);
    var (bbname, next) := NameOrNum(k.name, ctr0);
    DistinctPrefix(done, term);
    names, ctr := FirstPassInsts(b, k.insts, names0[BlockAt(b) := bbname], next, done0 + [head]);
    if TermNeedsName(k.term) {
      NameNext(names, done, Slot(TermAt(b), k.term.name), []);
      assert all == done + term + [];
      var (n, c) := NameOrNum(k.term.name, ctr);
      names, ctr := names[TermAt(b) := n], c;
    } else {
      assert all == done;
    }
  }

  /** The destinations, as `Instruction::from_llvm_ref` reads one instruction after the other. */
  method SecondPassInsts(b: nat, insts: seq<Inst>, names0: map<Place, Name>, ctr0: nat, ghost done0: seq<Slot>)
    returns (names: map<Place, Name>, ctr: nat)
    requires NamedBy(names0, done0) && ctr0 == Unnamed(done0) && DistinctPlaces(done0 + InstSlots(false, b, insts, 0))
    ensures NamedBy(names, done0 + InstSlots(false, b, insts, 0)) && ctr == Unnamed(done0 + InstSlots(false, b, insts, 0))
  {
    hide NamedBy;
    hide Unnamed;
    hide NameOrNum;
    hide DistinctPlaces;
    ghost var all := done0 + InstSlots(false, b, insts, 0);
    ghost var done := done0;
    names, ctr := names0, ctr0;
    for i := 0 to |insts|
      invariant all == done + InstSlots(false, b, insts, i)
      invariant NamedBy(names, done) && ctr == Unnamed(done)
    {
      var dest := match insts[i].op
        case StoreOp => false
        case FenceOp => false
        case CallOp(isVoid) => !isVoid
        case OtherOp => true;
      if dest {
        ghost var x := Slot(InstAt(b, i), insts[i].name);
        NameNext(names, done, x, InstSlots(false, b, insts, i + 1));
        assert all == done + [x] + InstSlots(false, b, insts, i + 1);
        var (n, c) := NameOrNum(insts[i].name, ctr);
        names, ctr, done := names[InstAt(b, i) := n], c, done + [x];
      }
    }
    assert all == done;
  }

  /** `BasicBlock::from_llvm_ref`: the block, then the instructions, then the terminator. */
  method SecondPassBlock(b: nat, raw: RawBlock, names0: map<Place, Name>, ctr0: nat, ghost done0: seq<Slot>)
    returns (names: map<Place, Name>, ctr: nat)
    requires WellFormed(raw)
    requires NamedBy(names0, done0) && ctr0 == Unnamed(done0) && DistinctPlaces(done0 + BlockSlots(false, b, BlockOf(raw)))
    ensures NamedBy(names, done0 + BlockSlots(false, b, BlockOf(raw))) && ctr == Unnamed(done0 + BlockSlots(false, b, BlockOf(raw)))
  {
    hide NamedBy;
    hide Unnamed;
    hide NameOrNum;
    hide DistinctPlaces;
    hide InstSlots;
    var items := AllButLast(raw.items);
    var k := Block(raw.name, InstsOf(items), raw.items[|raw.items| - 1].term);
    assert k == BlockOf(raw);
    ghost var head := Slot(BlockAt(b), k.name);
    ghost var insts, term := InstSlots(false, b, k.insts, 0), TermSlots(false, b, k.term);
    ghost var all := done0 + BlockSlots(false, b, k);
    ghost var done := done0 + [head] + insts;
    assert all == done0 + [head] + (insts + term) == done + term;
    NameNext(names0, done0, head, insts + term);
    var (bbname, next) := NameOrNum(k.name, ctr0);
    DistinctPrefix(done, term);
    names, ctr := SecondPassInsts(b, k.insts, names0[BlockAt(b) := bbname], next, done0 + [head]);
    if k.term.op.InvokeOp? || k.term.op.CatchSwitchOp? || k.term.op.CallBrOp? {
      NameNext(names, done, Slot(TermAt(b), k.term.name), []);
      assert all == done + term + [];
      var (n, c) := NameOrNum(k.term.name, ctr);
      names, ctr := names[TermAt(b) := n], c;
    } else {
      assert all == done;
    }
  }

  /** `Function::from_llvm_ref`: the second pass restarts from the counter after the parameters. */
  method NameFunction(raw: RawBody) returns (first: map<Place, Name>, firstCtr: nat, second: map<Place, Name>, secondCtr: nat)
    requires WellFormedBody(raw)
    ensures var f := BodyOf(raw); NamedBy(first, Slots(true, f)) && firstCtr == Unnamed(Slots(true, f))
    ensures var f := BodyOf(raw); NamedBy(second, Slots(false, f)) && secondCtr == Unnamed(Slots(false, f))
  {
    hide NamedBy;
    hide BlockSlots;
    ghost var f := BodyOf(raw);
    var params, afterParams := NameParams(raw.params);
    first, firstCtr := params, afterParams;
    SlotsDistinct(true, f);
    ghost var done := ParamSlots(f.params, 0);
    for b := 0 to |raw.blocks|
      invariant done + BlocksSlots(true, f.blocks, b) == Slots(true, f)
      invariant NamedBy(first, done) && firstCtr == Unnamed(done)
    {
      ghost var mine, rest := BlockSlots(true, b, f.blocks[b]), BlocksSlots(true, f.blocks, b + 1);
      assert Slots(true, f) == done + mine + rest;
      DistinctPrefix(done + mine, rest);
      first, firstCtr := FirstPassBlock(b, raw.blocks[b], first, firstCtr, done);
      done := done + mine;
    }
    assert done + [] == done;
    second, secondCtr := params, afterParams;
    SlotsDistinct(false, f);
    done := ParamSlots(f.params, 0);
    for b := 0 to |raw.blocks|
      invariant done + BlocksSlots(false, f.blocks, b) == Slots(false, f)
      invariant NamedBy(second, done) && secondCtr == Unnamed(done)
    {
      ghost var mine, rest := BlockSlots(false, b, f.blocks[b]), BlocksSlots(false, f.blocks, b + 1);
      assert Slots(false, f) == done + mine + rest;
      DistinctPrefix(done + mine, rest);
      second, secondCtr := SecondPassBlock(b, raw.blocks[b], second, secondCtr, done);
      done := done + mine;
    }
    assert done + [] == done;
  }

  // ------------------------------------------------------------ both passes agree

  /** The value at a place ends up with a name in the parsed function. */
  predicate HasResult(f: Body, p: Place) {
    match p
    case ParamAt(_) => true
    case BlockAt(_) => true
    case InstAt(b, i) => b < |f.blocks| && i < |f.blocks[b].insts| && HasDest(f.blocks[b].insts[i])
    case TermAt(b) => b < |f.blocks| && TermHasDest(f.blocks[b].term)
  }

  /** The slots with a result, in order. */
  function Keep(f: Body, slots: seq<Slot>): seq<Slot> {
    if slots == [] then []
    else Keep(f, slots[..|slots| - 1]) + (if HasResult(f, slots[|slots| - 1].at) then [slots[|slots| - 1]] else [])
  }

  /** A value without a result is visited only because it carries a string. */
  predicate ExtrasAreNamed(f: Body, slots: seq<Slot>) {
    forall k :: 0 <= k < |slots| && !HasResult(f, slots[k].at) ==> slots[k].text != ""
  }

  lemma {:induction false} KeepConcat(f: Body, a: seq<Slot>, b: seq<Slot>)
    ensures Keep(f, a + b) == Keep(f, a) + Keep(f, b)
  {
    hide HasResult;
    if b == [] {
      assert a + b == a;
    } else {
      var last := |b| - 1;
      assert (a + b)[..|a + b| - 1] == a + b[..last];
      KeepConcat(f, a, b[..last]);
    }
  }

  lemma {:induction false} KeepAll(f: Body, a: seq<Slot>)
    requires forall k :: 0 <= k < |a| ==> HasResult(f, a[k].at)
    ensures Keep(f, a) == a
  {
    if a != [] {
      KeepAll(f, a[..|a| - 1]);
    }
  }

  lemma {:induction false} InstsKeep(f: Body, b: nat, i: nat)
    requires b < |f.blocks| && i <= |f.blocks[b].insts|
    ensures var insts := f.blocks[b].insts;
      Keep(f, InstSlots(true, b, insts, i)) == InstSlots(false, b, insts, i)
      && ExtrasAreNamed(f, InstSlots(true, b, insts, i))
    decreases |f.blocks[b].insts| - i
  {
    var insts := f.blocks[b].insts;
    if i < |insts| {
      InstsKeep(f, b, i + 1);
      var x := Slot(InstAt(b, i), insts[i].name);
      var head := if NeedsName(insts[i]) then [x] else [];
      KeepConcat(f, head, InstSlots(true, b, insts, i + 1));
      assert [x][..0] == [];
      assert Keep(f, []) == [];
    }
  }

  lemma {:induction false} BlocksKeep(f: Body, b: nat)
    requires b <= |f.blocks|
    ensures Keep(f, BlocksSlots(true, f.blocks, b)) == BlocksSlots(false, f.blocks, b)
    ensures ExtrasAreNamed(f, BlocksSlots(true, f.blocks, b))
    decreases |f.blocks| - b
  {
    if b < |f.blocks| {
      BlocksKeep(f, b + 1);
      BlockKeep(f, b);
      KeepConcat(f, BlockSlots(true, b, f.blocks[b]), BlocksSlots(true, f.blocks, b + 1));
    }
  }

  lemma {:induction false} BlockKeep(f: Body, b: nat)
    requires b < |f.blocks|
    ensures Keep(f, BlockSlots(true, b, f.blocks[b])) == BlockSlots(false, b, f.blocks[b])
    ensures ExtrasAreNamed(f, BlockSlots(true, b, f.blocks[b]))
  {
    var k := f.blocks[b];
    var head, insts, term := [Slot(BlockAt(b), k.name)], InstSlots(true, b, k.insts, 0), TermSlots(true, b, k.term);
    InstsKeep(f, b, 0);
    TermKeep(f, b);
    KeepAll(f, head);
    hide InstSlots;
    hide TermSlots;
    hide Keep;
    KeepConcat(f, head, insts);
    KeepConcat(f, head + insts, term);
  }

  lemma {:induction false} TermKeep(f: Body, b: nat)
    requires b < |f.blocks|
    ensures Keep(f, TermSlots(true, b, f.blocks[b].term)) == TermSlots(false, b, f.blocks[b].term)
    ensures ExtrasAreNamed(f, TermSlots(true, b, f.blocks[b].term))
  {
    assert [Slot(TermAt(b), f.blocks[b].term.name)][..0] == [];
    assert Keep(f, []) == [];
  }

  /** The second pass visits exactly the places of the first that have a result. */
  lemma {:induction false} SlotsKeep(f: Body)
    ensures Keep(f, Slots(true, f)) == Slots(false, f) && ExtrasAreNamed(f, Slots(true, f))
  {
    hide BlocksSlots;
    ParamsInOrder(f.params, 0, ParamSlots(f.params, 0));
    KeepAll(f, ParamSlots(f.params, 0));
    BlocksKeep(f, 0);
    KeepConcat(f, ParamSlots(f.params, 0), BlocksSlots(true, f.blocks, 0));
  }

  lemma {:induction false} KeepNumbers(f: Body, slots: seq<Slot>)
    requires ExtrasAreNamed(f, slots)
    ensures Unnamed(Keep(f, slots)) == Unnamed(slots)
  {
    hide HasResult;
    if slots != [] {
      var last := |slots| - 1;
      KeepNumbers(f, slots[..last]);
      UnnamedSnoc(Keep(f, slots[..last]), slots[last]);
      assert Keep(f, slots[..last]) + [] == Keep(f, slots[..last]);
    }
  }

  lemma {:induction false} KeepNames(f: Body, slots: seq<Slot>, k: nat) returns (j: nat)
    requires ExtrasAreNamed(f, slots) && k < |slots| && HasResult(f, slots[k].at)
    ensures j < |Keep(f, slots)| && Keep(f, slots)[j] == slots[k]
    ensures NameAt(Keep(f, slots), j) == NameAt(slots, k)
  {
    hide HasResult;
    j := |Keep(f, slots[..k])|;
    var kept := Keep(f, slots);
    assert slots == slots[..k] + slots[k..];
    KeepConcat(f, slots[..k], slots[k..]);
    assert slots[k..] == [slots[k]] + slots[k + 1..];
    KeepConcat(f, [slots[k]], slots[k + 1..]);
    assert [slots[k]][..0] == [];
    assert Keep(f, [slots[k]]) == [slots[k]];
    assert kept[..j] == Keep(f, slots[..k]);
    KeepNumbers(f, slots[..k]);
  }

  /**
   For every function body the passes end with equal counters and give every parameter, block,
   instruction and terminator that has a result the same name; the first pass has an extra entry
   exactly for each value that has a string but no result.
   */
  lemma {:induction false} PassesAgree(f: Body, first: map<Place, Name>, second: map<Place, Name>)
    requires NamedBy(first, Slots(true, f)) && NamedBy(second, Slots(false, f))
    ensures Unnamed(Slots(true, f)) == Unnamed(Slots(false, f))
    ensures forall p :: p in second <==> p in first && HasResult(f, p)
    ensures forall p :: p in second ==> first[p] == second[p]
  {
    hide HasResult;
    hide Slots;
    var a, b := Slots(true, f), Slots(false, f);
    SlotsKeep(f);
    KeepNumbers(f, a);
    forall p ensures p in first && HasResult(f, p) ==> p in second && first[p] == second[p] {
      if p in first && HasResult(f, p) {
        var k :| 0 <= k < |a| && a[k].at == p;
        var j := KeepNames(f, a, k);
        assert b[j] == a[k];
      }
    }
    forall p | p in second ensures p in first && HasResult(f, p) {
      var j :| 0 <= j < |b| && b[j].at == p;
      KeepIsPart(f, a, j);
    }
  }

  lemma {:induction false} KeepIsPart(f: Body, slots: seq<Slot>, j: nat)
    requires j < |Keep(f, slots)|
    ensures HasResult(f, Keep(f, slots)[j].at) && Keep(f, slots)[j] in slots
  {
    hide HasResult;
    var last := |slots| - 1;
    if j < |Keep(f, slots[..last])| {
      KeepIsPart(f, slots[..last], j);
      assert Keep(f, slots)[j] == Keep(f, slots[..last])[j];
    }
  }

  // ------------------------------------------------------------ when the passes are equal

  /** What a pass visits, said without walking the body. */
  predicate IsSlot(first: bool, f: Body, x: Slot) {
    match x.at
    case ParamAt(i) => i < |f.params| && x.text == f.params[i]
    case BlockAt(b) => b < |f.blocks| && x.text == f.blocks[b].name
    case InstAt(b, i) => b < |f.blocks| && InstOk(first, f.blocks[b].insts, i, x.text)
    case TermAt(b) => b < |f.blocks| && VisitsTerm(first, f.blocks[b].term) && x.text == f.blocks[b].term.name
  }

  predicate InstOk(first: bool, insts: seq<Inst>, i: nat, text: string) {
    i < |insts| && Visits(first, insts[i]) && text == insts[i].name
  }

  lemma {:induction false} ParamSlotIff(ps: seq<string>, i: nat, x: Slot)
    requires i <= |ps|
    ensures x in ParamSlots(ps, i) <==> x.at.ParamAt? && i <= x.at.i < |ps| && x.text == ps[x.at.i]
    decreases |ps| - i
  {
    if i < |ps| {
      ParamSlotIff(ps, i + 1, x);
    }
  }

  lemma {:induction false} InstSlotIff(first: bool, b: nat, insts: seq<Inst>, i: nat, x: Slot)
    requires i <= |insts|
    ensures x in InstSlots(first, b, insts, i) <==>
      x.at.InstAt? && x.at.b == b && i <= x.at.i && InstOk(first, insts, x.at.i, x.text)
    decreases |insts| - i
  {
    hide Visits;
    if i < |insts| {
      InstSlotIff(first, b, insts, i + 1, x);
    }
  }

  lemma {:induction false} BlockSlotIff(first: bool, f: Body, b: nat, x: Slot)
    requires b < |f.blocks|
    ensures x in BlockSlots(first, b, f.blocks[b]) <==> Rank(x.at).0 == b + 1 && IsSlot(first, f, x)
  {
    hide VisitsTerm;
    hide InstOk;
    InstSlotIff(first, b, f.blocks[b].insts, 0, x);
    hide InstSlots;
  }

  lemma {:induction false} BlocksSlotIff(first: bool, f: Body, b: nat, x: Slot)
    requires b <= |f.blocks|
    ensures x in BlocksSlots(first, f.blocks, b) <==> Rank(x.at).0 > b && IsSlot(first, f, x)
    decreases |f.blocks| - b
  {
    hide BlockSlots;
    hide InstOk;
    hide VisitsTerm;
    if b < |f.blocks| {
      BlockSlotIff(first, f, b, x);
      BlocksSlotIff(first, f, b + 1, x);
    }
  }

  /** A pass visits every parameter and block, and exactly the instructions and terminators it should. */
  lemma {:induction false} SlotsAreExact(first: bool, f: Body, x: Slot)
    ensures x in Slots(first, f) <==> IsSlot(first, f, x)
  {
    hide InstOk;
    hide VisitsTerm;
    ParamSlotIff(f.params, 0, x);
    BlocksSlotIff(first, f, 0, x);
    hide ParamSlots;
    hide BlocksSlots;
  }

  /** The value at `p` carries a string although it has no result. */
  predicate NamedVoid(f: Body, p: Place) {
    match p
    case ParamAt(_) => false
    case BlockAt(_) => false
    case InstAt(b, i) =>
      b < |f.blocks| && i < |f.blocks[b].insts| && f.blocks[b].insts[i].name != "" && !HasDest(f.blocks[b].insts[i])
    case TermAt(b) => b < |f.blocks| && f.blocks[b].term.name != "" && !TermHasDest(f.blocks[b].term)
  }

  lemma {:induction false} ExtraIffNamedVoid(f: Body, first: map<Place, Name>, p: Place)
    requires NamedBy(first, Slots(true, f))
    ensures p in first && !HasResult(f, p) <==> NamedVoid(f, p)
  {
    hide Slots;
    var a := Slots(true, f);
    if p in first && !HasResult(f, p) {
      var k :| 0 <= k < |a| && a[k].at == p;
      SlotsAreExact(true, f, a[k]);
    }
    if NamedVoid(f, p) {
      var x := Slot(p, if p.InstAt? then f.blocks[p.b].insts[p.i].name else f.blocks[p.b].term.name);
      SlotsAreExact(true, f, x);
      assert x in a;
    }
  }

  /** The two passes produce the same map exactly when no value without a result carries a string. */
  lemma {:induction false} PassesEqualIff(f: Body, first: map<Place, Name>, second: map<Place, Name>)
    requires NamedBy(first, Slots(true, f)) && NamedBy(second, Slots(false, f))
    ensures first == second <==> forall p :: !NamedVoid(f, p)
    ensures forall p :: p in first && p !in second <==> NamedVoid(f, p)
  {
    PassesAgree(f, first, second);
    forall p ensures p in first && !HasResult(f, p) <==> NamedVoid(f, p) {
      ExtraIffNamedVoid(f, first, p);
    }
    hide HasResult;
    hide NamedVoid;
    hide NamedBy;
    hide Slots;
    if forall p :: !NamedVoid(f, p) {
      assert first.Keys == second.Keys;
    }
  }
}
