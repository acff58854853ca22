/** `analyze` from end to end: pre-scan, scan, final check, reported counts. */
module Analysis {
  import opened Common
  import opened Types
  import opened TypeSize
  import opened Ir
  import opened Gate
  import opened Irq
  import opened GateHistory
  import opened Scan
  import opened ScanFacts
  import opened Scanner

  /** `AnalysisOutcome` */
  datatype Outcome = Outcome(
    result: Verdict,
    seenVcs: nat, blockedVcs: nat, seenClasses: nat, blockedClasses: nat,
    asmVcs: nat, dmaVcs: nat, irqVcs: nat)

  ghost predicate HasIrqRisk(m: Module) { exists h :: IsFreeingHandler(m.functions, h) }

  ghost function ConfigFor(m: Module, asmPolicy: AsmPolicy, dma: DmaPolicy, timeouts: set<nat>): Config
    requires Acyclic(m.defs)
  {
    ConfigData(m.defs, dma, asmPolicy, HasIrqRisk(m), timeouts)
  }

  /** The outcomes a scan that ended in state `s` can report. */
  ghost predicate Reported(cfg: Config, s: ScanState, o: Outcome) {
    && IsOutcome(cfg, s, o.result)
    && o.seenVcs == |SetOf(s.gate.seen)| && o.blockedVcs == |SetOf(s.gate.blocked)|
    && o.seenClasses == |SetOf(s.gate.seenClasses)| && o.blockedClasses == |SetOf(s.gate.blockedClasses)|
    && o.asmVcs == s.asmVcs && o.dmaVcs == s.dmaVcs && o.irqVcs == s.irqVcs
  }

  method Analyze(m: Module, gate: HitlGate, asmPolicy: AsmPolicy, dma: DmaPolicy, timeouts: set<nat>)
    returns (o: Outcome)
    requires Acyclic(m.defs)
    modifies gate
    ensures var cfg := ConfigFor(m, asmPolicy, dma, timeouts);
      var s := RunModule(cfg, m.functions, 0, InitialState(old(gate.View())));
      gate.View() == s.gate && Reported(cfg, s, o)
  {
    hide RunModule;
    hide IsFreeingHandler;
    var handlers := ScanIrqHandlers(m);
    var risk := handlers != {};
    assert risk <==> HasIrqRisk(m) by {
      if risk {
        var h :| h in handlers;
        assert IsFreeingHandler(m.functions, h);
      }
    }
    var a := new Analyzer(ConfigData(m.defs, dma, asmPolicy, risk, timeouts), gate);
    a.ScanModule(m);
    a.FinalCheck();
    o := Outcome(a.verdict,
                 |SetOf(gate.seen)|, |SetOf(gate.blocked)|, |SetOf(gate.seenClasses)|, |SetOf(gate.blockedClasses)|,
                 a.asmVcs, a.dmaVcs, a.irqVcs);
  }

  /**
   When the pre-scan finds a handler that frees, no module whose scan reaches one tracked load or
   store is reported as passing, whatever the policies and the solver.
   */
  lemma {:induction false} FreeingHandlerDeniesPass(m: Module, asmPolicy: AsmPolicy, dma: DmaPolicy, timeouts: set<nat>,
                                                    gate: GateState, n: nat, o: Outcome)
    requires Acyclic(m.defs) && HasIrqRisk(m) && n < |ModuleSites(m.functions, 0)|
    requires var cfg := ConfigFor(m, asmPolicy, dma, timeouts);
      && ReachesTrackedAccess(cfg, ModuleSites(m.functions, 0), n, gate)
      && Reported(cfg, RunModule(cfg, m.functions, 0, InitialState(gate)), o)
    ensures !o.result.Pass?
  {
    hide HasIrqRisk;
    hide ReachesTrackedAccess;
    var cfg := ConfigFor(m, asmPolicy, dma, timeouts);
    ModuleIsFlat(cfg, m.functions, 0, InitialState(gate));
    RacyAccessMeansNotPassed(cfg, ModuleSites(m.functions, 0), n, gate);
  }

  /**
   The four lists written for review have the reported lengths; with distinct function names the
   lists of ids are as long as the histories themselves.
   */
  lemma {:induction false} EmittedAsReported(cfg: Config, fs: seq<Function>, gate: GateState, o: Outcome)
    requires FreshGate(gate) && Reported(cfg, RunModule(cfg, fs, 0, InitialState(gate)), o)
    ensures var g := RunModule(cfg, fs, 0, InitialState(gate)).gate;
      && |Emitted(g.seen)| == o.seenVcs && |Emitted(g.blocked)| == o.blockedVcs
      && |Emitted(g.seenClasses)| == o.seenClasses && |Emitted(g.blockedClasses)| == o.blockedClasses
      && (DistinctNames(fs) ==> o.seenVcs == |g.seen| && o.blockedVcs == |g.blocked|)
  {
    hide Emitted;
    hide RunModule;
    var g := RunModule(cfg, fs, 0, InitialState(gate)).gate;
    EmittedOnce(g.seen);
    EmittedOnce(g.blocked);
    EmittedOnce(g.seenClasses);
    EmittedOnce(g.blockedClasses);
    if DistinctNames(fs) {
      ScanHistory(cfg, fs, gate);
    }
  }
}
