/** The human-in-the-loop gate and the identifiers of verification conditions. */
module Gate {
  import opened Common
  import opened Numerals

  // ------------------------------------------------------------ identifiers

  datatype VcKind =
    | MemsetVc | MemcpyDestVc | MemcpySourceVc | InlineAsmVc | DmaAllocVc | DmaMapVc
    | StoreVc | LoadVc | IrqStoreVc | IrqLoadVc

  function KindText(k: VcKind): string {
    match k
    case MemsetVc => "memset"
    case MemcpyDestVc => "memcpy_destination"
    case MemcpySourceVc => "memcpy_source"
    case InlineAsmVc => "inline_asm"
    case DmaAllocVc => "dma_alloc"
    case DmaMapVc => "dma_map"
    case StoreVc => "store"
    case LoadVc => "load"
    case IrqStoreVc => "irq_race_store"
    case IrqLoadVc => "irq_race_load"
  }

  /** Where an instruction stands in the module. */
  datatype Loc = Loc(func: string, block: nat, index: nat)

  /** `vc_id` */
  function VcId(at: Loc, k: VcKind): string {
    at.func + "::bb" + DecNat(at.block) + "::i" + DecNat(at.index) + "::" + KindText(k)
  }

  /** `vc_class_id` */
  function SizedClass(kind: string, size: U64): string {
    "class::" + kind + "::size" + DecNat(size)
  }

  function IrqClass(id: nat): string { "class::irq_race::alloc" + DecNat(id) }

  const ASM_CLASS: string := "class::inline_asm::opaque"

  /** The ids and the class the unit tests of the gate use. */
  lemma SampleIds()
    ensures VcId(Loc("f", 0, 1), LoadVc) == "f::bb0::i1::load"
    ensures VcId(Loc("f", 0, 2), StoreVc) == "f::bb0::i2::store"
    ensures SizedClass(KindText(LoadVc), 4) == "class::load::size4"
  {
    assert DecNat(0) == "0" && DecNat(1) == "1" && DecNat(2) == "2" && DecNat(4) == "4";
    assert VcId(Loc("f", 0, 1), LoadVc) == "f" + "::bb" + "0" + "::i" + "1" + "::" + "load";
    assert VcId(Loc("f", 0, 2), StoreVc) == "f" + "::bb" + "0" + "::i" + "2" + "::" + "store";
    assert SizedClass(KindText(LoadVc), 4) == "class::" + "load" + "::size" + "4";
  }

  /** The last occurrence of `c` splits a string in one way only. */
  lemma {:induction false} SplitAtLast(a: string, b: string, c: char, x: string, y: string)
    requires c !in x && c !in y
    requires a + [c] + x == b + [c] + y
    ensures a == b && x == y
  {
    var s := a + [c] + x;
    assert s[|a|] == c && s[|b|] == c;
    assert forall i :: |a| < i < |s| ==> s[i] == x[i - |a| - 1];
    assert forall i :: |b| < i < |s| ==> s[i] == y[i - |b| - 1];
    assert s[..|a|] == a && s[..|b|] == b;
    assert s[|a| + 1..] == x && s[|b| + 1..] == y;
  }

  lemma KindTextInjective(j: VcKind, k: VcKind)
    requires KindText(j) == KindText(k)
    ensures j == k
  {
    assert |KindText(MemsetVc)| == 6 && |KindText(MemcpyDestVc)| == 18 && |KindText(MemcpySourceVc)| == 13;
    assert |KindText(InlineAsmVc)| == 10 && |KindText(DmaAllocVc)| == 9 && |KindText(DmaMapVc)| == 7;
    assert |KindText(StoreVc)| == 5 && |KindText(LoadVc)| == 4;
    assert |KindText(IrqStoreVc)| == 14 && |KindText(IrqLoadVc)| == 13;
    assert KindText(MemcpySourceVc)[0] != KindText(IrqLoadVc)[0];
  }

  lemma KindTextHasNoColon(k: VcKind)
    ensures ':' !in KindText(k)
  {
  }

  /** Different sites or kinds never share an identifier, whatever the function names contain. */
  lemma {:induction false} VcIdInjective(p: Loc, j: VcKind, q: Loc, k: VcKind)
    requires VcId(p, j) == VcId(q, k)
    ensures p == q && j == k
  {
    hide KindText;
    KindTextHasNoColon(j);
    KindTextHasNoColon(k);
    var a := p.func + "::bb" + DecNat(p.block) + "::i" + DecNat(p.index) + ":";
    var b := q.func + "::bb" + DecNat(q.block) + "::i" + DecNat(q.index) + ":";
    assert VcId(p, j) == a + [':'] + KindText(j);
    assert VcId(q, k) == b + [':'] + KindText(k);
    SplitAtLast(a, b, ':', KindText(j), KindText(k));
    KindTextInjective(j, k);
    SitePrefixInjective(p, q);
  }

  lemma {:induction false} SitePrefixInjective(p: Loc, q: Loc)
    requires p.func + "::bb" + DecNat(p.block) + "::i" + DecNat(p.index) + ":"
          == q.func + "::bb" + DecNat(q.block) + "::i" + DecNat(q.index) + ":"
    ensures p == q
  {
    var x, y := DecNat(p.index), DecNat(q.index);
    var u, v := DecNat(p.block), DecNat(q.block);
    var a := p.func + "::bb" + u + "::";
    var b := q.func + "::bb" + v + "::";
    assert a + ['i'] + x == b + ['i'] + y by {
      var s, t := a + ['i'] + x, b + ['i'] + y;
      assert "::i" == "::" + "i";
      assert s + [':'] == p.func + "::bb" + u + "::i" + x + ":";
      assert t + [':'] == q.func + "::bb" + v + "::i" + y + ":";
      assert (s + [':'])[..|s|] == s && (t + [':'])[..|t|] == t;
    }
    assert !IsDigit('i');
    SplitAtLast(a, b, 'i', x, y);
    DecNatInjective(p.index, q.index);
    BlockPrefixInjective(p, q);
  }

  lemma {:induction false} BlockPrefixInjective(p: Loc, q: Loc)
    requires p.func + "::bb" + DecNat(p.block) + "::" == q.func + "::bb" + DecNat(q.block) + "::"
    ensures p.func == q.func && p.block == q.block
  {
    var u, v := DecNat(p.block), DecNat(q.block);
    var a := p.func + "::bb" + u + "::";
    var b := q.func + "::bb" + v + "::";
    assert !IsDigit('b');
    var c, d := p.func + "::b", q.func + "::b";
    assert c + ['b'] + u == d + ['b'] + v by {
      var s, t := c + ['b'] + u, d + ['b'] + v;
      assert "::bb" == "::b" + "b";
      assert a == s + "::" && b == t + "::";
      assert (s + "::")[..|s|] == s && (t + "::")[..|t|] == t;
    }
    SplitAtLast(c, d, 'b', u, v);
    DecNatInjective(p.block, q.block);
    assert c[..|p.func|] == p.func && d[..|q.func|] == q.func;
  }

  // ------------------------------------------------------------ the gate

  datatype HitlMode = Off | Require

  datatype GateState = GateState(
    mode: HitlMode,
    approved: set<string>,
    approvedClasses: set<string>,
    seen: seq<string>,
    seenClasses: seq<string>,
    blocked: seq<string>,
    blockedClasses: seq<string>)

  predicate Approves(g: GateState, vc: string, cls: string) {
    g.mode.Off? || vc in g.approved || cls in g.approvedClasses
  }

  /** The gate after one `should_run_solver`, whose answer is `Approves(g, vc, cls)`. */
  function Ask(g: GateState, vc: string, cls: string): (r: GateState) {
    var h := g.(seen := g.seen + [vc], seenClasses := g.seenClasses + [cls]);
    if Approves(g, vc, cls) then h
    else h.(blocked := h.blocked + [vc], blockedClasses := h.blockedClasses + [cls])
  }

  /** `HitlGate` */
  class HitlGate {
    const mode: HitlMode
    const approved: set<string>
    const approvedClasses: set<string>
    var seen: seq<string>
    var seenClasses: seq<string>
    var blocked: seq<string>
    var blockedClasses: seq<string>

    function View(): GateState
      reads this
    {
      GateState(mode, approved, approvedClasses, seen, seenClasses, blocked, blockedClasses)
    }

    constructor (mode: HitlMode, approved: set<string>, approvedClasses: set<string>)
      ensures View() == GateState(mode, approved, approvedClasses, [], [], [], [])
    {
      this.mode, this.approved, this.approvedClasses := mode, approved, approvedClasses;
      seen, seenClasses, blocked, blockedClasses := [], [], [], [];
    }

    method ShouldRunSolver(vc: string, cls: string) returns (run: bool)
      modifies this
      ensures View() == Ask(old(View()), vc, cls)
      ensures run == Approves(old(View()), vc, cls)
    {
      seen := seen + [vc];
      seenClasses := seenClasses + [cls];
      if mode.Off? {
        return true;
      }
      if vc in approved || cls in approvedClasses {
        return true;
      } else {
        blocked := blocked + [vc];
        blockedClasses := blockedClasses + [cls];
        return false;
      }
    }
  }

  // ------------------------------------------------------------ history

  datatype Entry = Entry(id: string, cls: string)

  /** The unapproved entries of a history, in order. */
  function Unapproved(g: GateState, ids: seq<string>, classes: seq<string>): seq<Entry>
    requires |ids| == |classes|
  {
    if ids == [] then [] else
    var k := |ids| - 1;
    Unapproved(g, ids[..k], classes[..k])
      + (if Approves(g, ids[k], classes[k]) then [] else [Entry(ids[k], classes[k])])
  }

  /** The blocked lists are the unapproved subsequence of the seen lists, index by index. */
  ghost predicate Faithful(g: GateState) {
    && |g.seen| == |g.seenClasses|
    && |g.blocked| == |g.blockedClasses|
    && Unapproved(g, g.seen, g.seenClasses)
       == seq(|g.blocked|, i requires 0 <= i < |g.blocked| && |g.blocked| == |g.blockedClasses|
                             => Entry(g.blocked[i], g.blockedClasses[i]))
  }

  lemma {:induction false} UnapprovedIgnoresLists(g: GateState, h: GateState, ids: seq<string>, classes: seq<string>)
    requires |ids| == |classes|
    requires g.mode == h.mode && g.approved == h.approved && g.approvedClasses == h.approvedClasses
    ensures Unapproved(g, ids, classes) == Unapproved(h, ids, classes)
  {
    if ids != [] {
      UnapprovedIgnoresLists(g, h, ids[..|ids| - 1], classes[..|ids| - 1]);
    }
  }

  lemma {:induction false} AskKeepsFaithful(g: GateState, vc: string, cls: string)
    requires Faithful(g)
    ensures Faithful(Ask(g, vc, cls))
  {
    var h := Ask(g, vc, cls);
    UnapprovedIgnoresLists(g, h, g.seen, g.seenClasses);
    assert h.seen[..|g.seen|] == g.seen && h.seenClasses[..|g.seen|] == g.seenClasses;
  }

  /** Nothing was blocked exactly when every condition seen was approved. */
  lemma {:induction false} NothingBlocked(g: GateState)
    requires Faithful(g)
    ensures g.blocked == [] <==>
            forall i :: 0 <= i < |g.seen| ==> Approves(g, g.seen[i], g.seenClasses[i])
  {
    UnapprovedEmpty(g, g.seen, g.seenClasses);
  }

  lemma {:induction false} UnapprovedEmpty(g: GateState, ids: seq<string>, classes: seq<string>)
    requires |ids| == |classes|
    ensures Unapproved(g, ids, classes) == [] <==>
            forall i :: 0 <= i < |ids| ==> Approves(g, ids[i], classes[i])
  {
    if ids != [] {
      var k := |ids| - 1;
      UnapprovedEmpty(g, ids[..k], classes[..k]);
      assert forall i :: 0 <= i < k ==> ids[..k][i] == ids[i] && classes[..k][i] == classes[i];
    }
  }
}
