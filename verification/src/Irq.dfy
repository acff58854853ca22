/** The pre-scan for interrupt handlers that free memory. */
module Irq {
  import opened Common
  import opened Types
  import opened Ir

  /** `request_irq(_, handler, ...)`: the second argument is the global `handler`. */
  predicate Registers(instr: Instr, handler: string) {
    && IsCallTo(instr, "request_irq")
    && |instr.args| >= 2 && instr.args[1].Const? && instr.args[1].c == GlobalRef(Named(handler))
  }

  ghost predicate BlocksRegister(blocks: seq<seq<Instr>>, handler: string) {
    exists b, i :: 0 <= b < |blocks| && 0 <= i < |blocks[b]| && Registers(blocks[b][i], handler)
  }

  ghost predicate BlocksCall(blocks: seq<seq<Instr>>, routine: string) {
    exists b, i :: 0 <= b < |blocks| && 0 <= i < |blocks[b]| && IsCallTo(blocks[b][i], routine)
  }

  ghost predicate IsRegistered(fs: seq<Function>, handler: string) {
    exists f :: f in fs && BlocksRegister(f.blocks, handler)
  }

  /** A defined function that is registered by name anywhere in the module and itself calls `kfree`. */
  ghost predicate IsFreeingHandler(fs: seq<Function>, handler: string) {
    && IsRegistered(fs, handler)
    && exists f :: f in fs && f.name == handler && BlocksCall(f.blocks, "kfree")
  }

  method RegisteredInBlock(instrs: seq<Instr>) returns (r: set<string>)
    ensures forall h :: h in r <==> exists i :: 0 <= i < |instrs| && Registers(instrs[i], h)
  {
    r := {};
    for i := 0 to |instrs|
      invariant forall h :: h in r <==> exists j :: 0 <= j < i && Registers(instrs[j], h)
    {
      ghost var before := r;
      if instrs[i].Call? && CalleeName(instrs[i].callee) == Some("request_irq") {
        var args := instrs[i].args;
        if |args| > 1 && args[1].Const? && args[1].c.GlobalRef? && args[1].c.name.Named? {
          r := r + {args[1].c.name.text};
        }
      }
      assert forall h :: h in r <==> h in before || Registers(instrs[i], h);
    }
  }

  method RegisteredInFunction(f: Function) returns (r: set<string>)
    ensures forall h :: h in r <==> BlocksRegister(f.blocks, h)
  {
    hide Registers;
    r := {};
    for b := 0 to |f.blocks|
      invariant forall h :: h in r <==> BlocksRegister(f.blocks[..b], h)
    {
      var names := RegisteredInBlock(f.blocks[b]);
      forall h ensures h in r + names <==> BlocksRegister(f.blocks[..b + 1], h) {
        RegisterNextBlock(f.blocks, b, h);
      }
      r := r + names;
    }
    assert f.blocks[..|f.blocks|] == f.blocks;
  }

  lemma RegisterNextBlock(blocks: seq<seq<Instr>>, b: nat, h: string)
    requires b < |blocks|
    ensures BlocksRegister(blocks[..b + 1], h) <==>
      BlocksRegister(blocks[..b], h) || exists i :: 0 <= i < |blocks[b]| && Registers(blocks[b][i], h)
  {
    hide Registers;
    var p, q := blocks[..b], blocks[..b + 1];
    assert forall c :: 0 <= c < b ==> p[c] == q[c];
    assert q[b] == blocks[b];
    if BlocksRegister(p, h) {
      var c, i :| 0 <= c < |p| && 0 <= i < |p[c]| && Registers(p[c][i], h);
      assert Registers(q[c][i], h);
    }
    if i :| 0 <= i < |blocks[b]| && Registers(blocks[b][i], h) {
      assert Registers(q[b][i], h);
    }
    if BlocksRegister(q, h) {
      var c, i :| 0 <= c < |q| && 0 <= i < |q[c]| && Registers(q[c][i], h);
      if c < b {
        assert Registers(p[c][i], h);
      }
    }
  }

  method FunctionCalls(f: Function, routine: string) returns (r: bool)
    ensures r <==> BlocksCall(f.blocks, routine)
  {
    r := false;
    for b := 0 to |f.blocks|
      invariant r <==> exists c, i :: 0 <= c < b && 0 <= i < |f.blocks[c]| && IsCallTo(f.blocks[c][i], routine)
    {
      ghost var before := r;
      for i := 0 to |f.blocks[b]|
        invariant r <==> before || exists j :: 0 <= j < i && IsCallTo(f.blocks[b][j], routine)
      {
        if f.blocks[b][i].Call? && CalleeName(f.blocks[b][i].callee) == Some(routine) {
          r := true;
        }
      }
    }
  }

  /** `scan_irq_handlers`: both phases. */
  method ScanIrqHandlers(m: Module) returns (r: set<string>)
    ensures forall h :: h in r <==> IsFreeingHandler(m.functions, h)
  {
    var fs := m.functions;
    var handlers: set<string> := {};
    for k := 0 to |fs|
      invariant forall h :: h in handlers <==> exists j :: 0 <= j < k && BlocksRegister(fs[j].blocks, h)
    {
      var names := RegisteredInFunction(fs[k]);
      handlers := handlers + names;
    }
    r := {};
    for k := 0 to |fs|
      invariant forall h :: h in r <==>
        h in handlers && exists j :: 0 <= j < k && fs[j].name == h && BlocksCall(fs[j].blocks, "kfree")
    {
      if fs[k].name in handlers {
        var frees := FunctionCalls(fs[k], "kfree");
        if frees {
          r := r + {fs[k].name};
        }
      }
    }
    forall h ensures h in r <==> IsFreeingHandler(fs, h) {
      HandlersByIndex(fs, h);
    }
  }

  lemma HandlersByIndex(fs: seq<Function>, h: string)
    ensures IsRegistered(fs, h) <==> exists j :: 0 <= j < |fs| && BlocksRegister(fs[j].blocks, h)
    ensures IsFreeingHandler(fs, h) <==>
      IsRegistered(fs, h) && exists j :: 0 <= j < |fs| && fs[j].name == h && BlocksCall(fs[j].blocks, "kfree")
  {
    hide BlocksRegister;
    hide BlocksCall;
  }

  /** The result depends on which functions a module has, not on their order. */
  lemma OrderDoesNotMatter(fs: seq<Function>, gs: seq<Function>, h: string)
    requires multiset(fs) == multiset(gs)
    ensures IsFreeingHandler(fs, h) <==> IsFreeingHandler(gs, h)
  {
    hide BlocksRegister;
    hide BlocksCall;
    assert forall f :: f in fs <==> f in multiset(fs);
    assert forall f :: f in gs <==> f in multiset(gs);
  }

  function Direct(name: string): Callee { Fn(Const(GlobalRef(Named(name)), PointerType(0))) }

  /** The smallest module at risk: one function registers the other, which frees something. */
  lemma RegisteredHandlerFrees(init: string, irq: Operand, handler: string, more: seq<Operand>, freed: seq<Operand>)
    ensures var register := Call(Direct("request_irq"), [irq, Const(GlobalRef(Named(handler)), PointerType(0))] + more, None);
      var free := Call(Direct("kfree"), freed, None);
      var fs := [Function(init, [[register]]), Function(handler, [[free]])];
      IsFreeingHandler(fs, handler)
  {
    var register := Call(Direct("request_irq"), [irq, Const(GlobalRef(Named(handler)), PointerType(0))] + more, None);
    var free := Call(Direct("kfree"), freed, None);
    var fs := [Function(init, [[register]]), Function(handler, [[free]])];
    assert Registers(fs[0].blocks[0][0], handler);
    assert IsCallTo(fs[1].blocks[0][0], "kfree");
    assert fs[0] in fs && fs[1] in fs;
  }
}
