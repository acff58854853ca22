/** From the scan to the exit code: human approval, ring policy, attestation. */
module Pipeline {
  import opened Common
  import opened Numerals
  import opened Types
  import opened TypeSize
  import opened Ir
  import opened Gate
  import opened GateHistory
  import opened Scan
  import opened Analysis
  import opened Token
  import C = TokenC
  import opened Replay
  import B = Backends

  datatype RingMode = Ring0 | RingM1 | RingM2

  /** `RingMode::token_ring` */
  function TokenRing(ring: RingMode): Option<int> {
    match ring
    case Ring0 => None
    case RingM1 => Some(-1)
    case RingM2 => Some(-2)
  }

  /** The attestation options of the command line; paths are strings. */
  datatype Options = Options(
    ring: RingMode,
    token: Option<string>, maxAge: U64, nonce: Option<string>, replayState: Option<string>,
    pubkey: Option<string>, signature: Option<string>, fingerprint: Option<string>,
    rootPubkey: Option<string>, rootSignature: Option<string>, rootFingerprint: Option<string>)

  /** The world outside: what signature checks and file checks say, the two files, the clock. */
  datatype Host = Host(
    signatureOk: bool, rootSignatureOk: bool, tokenFileOk: bool, stateFileOk: bool, tokenText: string, stateText: string, now: int)

  datatype Cause =
    | ScanFailed(why: Reason)
    | HitlRejected(count: nat)
    | NoToken | TokenPathNul | NoPubkey | NoSignature | NoFingerprint | BadSignature
    | NoRootPubkey | NoRootSignature | NoRootFingerprint | BadRootSignature
    | ZeroMaxAge | HugeMaxAge | NonceNul | NoNonce | NoReplayState | ReplayPathNul
    | TokenRejected
    | StrictUnknown(why: Reason)

  /** `AnalysisResult` after the policies; `Undecidable` is a validator that ran into undefined arithmetic. */
  datatype Result = Passed | Failed(cause: Cause) | Unresolved(why: Reason) | Undecidable

  function FromVerdict(v: Verdict): Result {
    match v
    case Pass => Passed
    case Fail(why) => Failed(ScanFailed(why))
    case Unknown(why) => Unresolved(why)
  }

  /** `enforce_hitl_policy` */
  function EnforceHitl(r: Result, mode: HitlMode, blocked: nat): Result {
    if mode.Require? && blocked > 0 then Failed(HitlRejected(blocked)) else r
  }

  predicate HasNul(s: string) { '\0' in s }

  /** The options `apply_ring_policy` insists on, in its order; `None` when all are in place. */
  function OptionProblem(o: Options, h: Host): Option<Cause> {
    if o.token.None? then Some(NoToken)
    else if HasNul(o.token.value) then Some(TokenPathNul)
    else if o.pubkey.None? then Some(NoPubkey)
    else if o.signature.None? then Some(NoSignature)
    else if o.fingerprint.None? then Some(NoFingerprint)
    else if !h.signatureOk then Some(BadSignature)
    else if o.ring.RingM2? && o.rootPubkey.None? then Some(NoRootPubkey)
    else if o.ring.RingM2? && o.rootSignature.None? then Some(NoRootSignature)
    else if o.ring.RingM2? && o.rootFingerprint.None? then Some(NoRootFingerprint)
    else if o.ring.RingM2? && !h.rootSignatureOk then Some(BadRootSignature)
    else if o.maxAge == 0 then Some(ZeroMaxAge)
    else if !FitsI64(o.maxAge) then Some(HugeMaxAge)
    else if o.nonce.None? then Some(NoNonce)
    else if HasNul(o.nonce.value) then Some(NonceNul)
    else if o.replayState.None? then Some(NoReplayState)
    else if HasNul(o.replayState.value) then Some(ReplayPathNul)
    else None
  }

  /** The call of the C validator. */
  function Validate(o: Options, h: Host, ring: int): B.Decision
    requires o.token.Some? && o.replayState.Some?
  {
    if o.token.value == "" || !h.tokenFileOk then B.Deny else
    match C.Admit(C.FieldsOf(C.Lines(h.tokenText)), ring, o.maxAge, h.now, o.nonce)
    case Proceed(c) =>
      if o.replayState.value == "" || !h.stateFileOk then B.Deny else B.Settle(Proceed(c), StoredC(h.stateText))
    case a => B.Settle(a, StoredC(h.stateText))
  }

  /** The strict rings do not let an unresolved proof through. */
  function Strict(ring: RingMode, r: Result): Result {
    if !ring.Ring0? && r.Unresolved? then Failed(StrictUnknown(r.why)) else r
  }

  /** `apply_ring_policy`: the result, and the replay state file it leaves behind. */
  function RingPolicy(r: Result, o: Options, h: Host): (Result, string) {
    match TokenRing(o.ring)
    case None => (r, h.stateText)
    case Some(ring) =>
      match OptionProblem(o, h)
      case Some(cause) => (Failed(cause), h.stateText)
      case None =>
        match Validate(o, h, ring)
        case Deny => (Failed(TokenRejected), h.stateText)
        case Overflowed => (Undecidable, h.stateText)
        case Accept(text) => (Strict(o.ring, r), text)
  }

  /** `verdict_from_result`'s code; an undecidable run has none. */
  function ExitCode(r: Result): Option<nat> {
    match r
    case Passed => Some(0)
    case Failed(_) => Some(10)
    case Unresolved(_) => Some(20)
    case Undecidable => None
  }

  /** The end of `run` after the scan: the exit code and the replay state left behind. */
  function Finish(v: Verdict, blocked: nat, mode: HitlMode, o: Options, h: Host): (Option<nat>, string) {
    var (r, text) := RingPolicy(EnforceHitl(FromVerdict(v), mode, blocked), o, h);
    (ExitCode(r), text)
  }

  // ------------------------------------------------------------ what exit code 0 means

  /** Everything an attested ring demands, stated on the options, the host and the token's fields. */
  ghost predicate Attested(o: Options, h: Host) {
    var f := C.FieldsOf(C.Lines(h.tokenText));
    // keys and signatures
    && KeysInPlace(o, h)
    // paths and files
    && o.token.Some? && o.token.value != "" && !HasNul(o.token.value)
    && o.replayState.Some? && o.replayState.value != "" && !HasNul(o.replayState.value)
    && h.tokenFileOk && h.stateFileOk
    // the token
    && f.ring == TokenRing(o.ring) && f.attested == Some(true)
    && (o.ring.RingM2? ==> f.rootAttested == Some(true))
    // age
    && 0 < o.maxAge <= LLONG_MAX && h.now != -1
    && f.timestamp.Some? && f.timestamp.value <= h.now
    && h.now - f.timestamp.value <= o.maxAge && FitsI64(h.now - f.timestamp.value)
    // nonce and replay counter
    && o.nonce.Some? && !HasNul(o.nonce.value) && f.nonce == o.nonce
    && f.counter.Some? && f.counter.value > StoredC(h.stateText)
  }

  predicate KeysInPlace(o: Options, h: Host) {
    && o.pubkey.Some? && o.signature.Some? && o.fingerprint.Some? && h.signatureOk
    && (o.ring.RingM2? ==>
          o.rootPubkey.Some? && o.rootSignature.Some? && o.rootFingerprint.Some? && h.rootSignatureOk)
  }

  /**
   The validator reaches the age subtraction and it overflows: keys, options and the token's ring and
   flags are in order, and its timestamp lies more than 2^63 - 1 seconds back.
   */
  ghost predicate AgeOverflows(o: Options, h: Host) {
    var f := C.FieldsOf(C.Lines(h.tokenText));
    && KeysInPlace(o, h)
    && o.token.Some? && o.token.value != "" && !HasNul(o.token.value) && h.tokenFileOk
    && o.replayState.Some? && !HasNul(o.replayState.value)
    && 0 < o.maxAge <= LLONG_MAX && o.nonce.Some? && !HasNul(o.nonce.value)
    && f.counter.Some? && f.ring == TokenRing(o.ring) && f.attested == Some(true)
    && (o.ring.RingM2? ==> f.rootAttested == Some(true))
    && h.now != -1 && f.timestamp.Some? && f.timestamp.value <= h.now && !FitsI64(h.now - f.timestamp.value)
  }

  lemma {:induction false} OverflowsIff(o: Options, h: Host)
    requires !o.ring.Ring0?
    ensures AgeOverflows(o, h) <==>
      OptionProblem(o, h).None? && Validate(o, h, TokenRing(o.ring).value).Overflowed?
  {
    hide C.Lines;
    hide C.FieldsOf;
    hide StoredC;
    hide Canonical;
    hide HasNul;
  }

  lemma {:induction false} AttestedIsAccept(o: Options, h: Host)
    requires !o.ring.Ring0?
    ensures Attested(o, h) <==>
      OptionProblem(o, h).None? && Validate(o, h, TokenRing(o.ring).value).Accept?
    ensures Attested(o, h) ==>
      Validate(o, h, TokenRing(o.ring).value)
      == B.Accept(Canonical(C.FieldsOf(C.Lines(h.tokenText)).counter.value))
  {
    hide C.Lines;
    hide C.FieldsOf;
    hide C.Admit;
    hide StoredC;
    hide Canonical;
    hide HasNul;
    var f := C.FieldsOf(C.Lines(h.tokenText));
    var ring := TokenRing(o.ring).value;
    forall c ensures C.Admit(f, ring, o.maxAge, h.now, o.nonce) == Proceed(c) <==>
      && f.counter == Some(c) && f.ring == Some(ring) && f.attested == Some(true)
      && (ring == -2 ==> f.rootAttested == Some(true))
      && f.timestamp.Some? && f.timestamp.value <= h.now && h.now != -1
      && FitsI64(h.now - f.timestamp.value) && h.now - f.timestamp.value <= o.maxAge && o.maxAge > 0
      && (o.nonce.Some? ==> f.nonce == o.nonce)
    {
      C.AdmitMeans(f, ring, o.maxAge, h.now, o.nonce, c);
    }
  }

  /** The run exits 0 exactly when the scan passed, nothing was left unapproved, and the ring is satisfied. */
  lemma {:induction false} FinishZero(v: Verdict, blocked: nat, mode: HitlMode, o: Options, h: Host)
    ensures Finish(v, blocked, mode, o, h).0 == Some(0) <==>
      v.Pass? && (mode.Require? ==> blocked == 0) && (!o.ring.Ring0? ==> Attested(o, h))
  {
    hide Validate;
    hide OptionProblem;
    hide Attested;
    if !o.ring.Ring0? {
      AttestedIsAccept(o, h);
    }
  }

  /** Something was left unapproved although approval is required. */
  predicate LeftUnapproved(mode: HitlMode, blocked: nat) { mode.Require? && blocked > 0 }

  /**
   The exit code of every run: 20 exactly for an unknown verdict on ring 0 with nothing left
   unapproved, 10 exactly for a failed scan, something unapproved, or a strict ring whose attestation
   did not hold or whose proof is unresolved, and none exactly when the validator's age subtraction
   overflows.
   */
  lemma {:induction false} FinishCode(v: Verdict, blocked: nat, mode: HitlMode, o: Options, h: Host)
    ensures var code := Finish(v, blocked, mode, o, h).0;
      var strict := !o.ring.Ring0?;
      && (code == Some(20) <==> !strict && v.Unknown? && !LeftUnapproved(mode, blocked))
      && (code == Some(10) <==>
            && !(strict && AgeOverflows(o, h))
            && (v.Fail? || LeftUnapproved(mode, blocked) || (strict && (!Attested(o, h) || v.Unknown?))))
      && (code == None <==> strict && AgeOverflows(o, h))
      && code in {Some(0), Some(10), Some(20), None}
  {
    hide Validate;
    hide OptionProblem;
    hide Attested;
    hide AgeOverflows;
    if !o.ring.Ring0? {
      AttestedIsAccept(o, h);
      OverflowsIff(o, h);
    }
  }

  /**
   End to end: a completed run over any module exits 0 exactly when the scan passed, every
   verification condition it saw was approved (in require mode), and, for ring -1 and -2, the
   whole attestation held.
   */
  lemma {:induction false} RunExitsZero(cfg: Config, fs: seq<Function>, gate: GateState, outcome: Outcome, o: Options, h: Host)
    requires FreshGate(gate)
    requires Reported(cfg, RunModule(cfg, fs, 0, InitialState(gate)), outcome)
    ensures var s := RunModule(cfg, fs, 0, InitialState(gate));
      && |s.gate.seen| == |s.gate.seenClasses|
      && (Finish(outcome.result, outcome.blockedVcs, gate.mode, o, h).0 == Some(0) <==>
          && outcome.result.Pass?
          && (gate.mode.Require? ==> forall i :: 0 <= i < |s.gate.seen| ==> SignedOff(gate, s.gate.seen[i], s.gate.seenClasses[i]))
          && (!o.ring.Ring0? ==> Attested(o, h)))
  {
    hide Attested;
    hide Finish;
    var g := RunModule(cfg, fs, 0, InitialState(gate)).gate;
    BlockedMeansUnapproved(cfg, fs, gate);
    EmptySet(g.blocked);
    FinishZero(outcome.result, outcome.blockedVcs, gate.mode, o, h);
  }

  /** The other codes of a completed run over any module. */
  lemma {:induction false} RunExitCode(cfg: Config, fs: seq<Function>, gate: GateState, outcome: Outcome, o: Options, h: Host)
    requires FreshGate(gate)
    requires Reported(cfg, RunModule(cfg, fs, 0, InitialState(gate)), outcome)
    ensures var s := RunModule(cfg, fs, 0, InitialState(gate));
      var code, strict := Finish(outcome.result, outcome.blockedVcs, gate.mode, o, h).0, !o.ring.Ring0?;
      && |s.gate.seen| == |s.gate.seenClasses|
      && var unapproved := gate.mode.Require?
           && exists i :: 0 <= i < |s.gate.seen| && !SignedOff(gate, s.gate.seen[i], s.gate.seenClasses[i]);
         && (code == Some(20) <==> !strict && outcome.result.Unknown? && !unapproved)
         && (code == Some(10) <==>
               && !(strict && AgeOverflows(o, h))
               && (outcome.result.Fail? || unapproved || (strict && (!Attested(o, h) || outcome.result.Unknown?))))
         && (code == None <==> strict && AgeOverflows(o, h))
  {
    hide Attested;
    hide AgeOverflows;
    hide Finish;
    var g := RunModule(cfg, fs, 0, InitialState(gate)).gate;
    BlockedMeansUnapproved(cfg, fs, gate);
    EmptySet(g.blocked);
    FinishCode(outcome.result, outcome.blockedVcs, gate.mode, o, h);
  }

  lemma {:induction false} BlockedMeansUnapproved(cfg: Config, fs: seq<Function>, gate: GateState)
    requires FreshGate(gate)
    ensures var g := RunModule(cfg, fs, 0, InitialState(gate)).gate;
      && |g.seen| == |g.seenClasses|
      && (gate.mode.Require? ==>
           (g.blocked == [] <==> forall i :: 0 <= i < |g.seen| ==> SignedOff(gate, g.seen[i], g.seenClasses[i])))
  {
    var g := RunModule(cfg, fs, 0, InitialState(gate)).gate;
    ModuleIsFlat(cfg, fs, 0, InitialState(gate));
    assert Unapproved(gate, [], []) == [];
    RunFaithful(cfg, ModuleSites(fs, 0), InitialState(gate));
    NothingBlocked(g);
    assert forall i :: 0 <= i < |g.seen| ==>
      (Approves(g, g.seen[i], g.seenClasses[i]) <==> gate.mode.Off? || SignedOff(gate, g.seen[i], g.seenClasses[i]));
  }

  /** A person approved the condition, by its id or by its class. */
  predicate SignedOff(gate: GateState, vc: string, cls: string) { vc in gate.approved || cls in gate.approvedClasses }

  lemma EmptySet(s: seq<string>)
    ensures |SetOf(s)| == 0 <==> s == []
  {
    if s != [] {
      assert s[0] in SetOf(s);
    } else {
      assert SetOf(s) == {};
    }
  }

  /** The strict rings never report an unresolved proof. */
  lemma StrictRingsNeverExit20(v: Verdict, blocked: nat, mode: HitlMode, o: Options, h: Host)
    requires !o.ring.Ring0?
    ensures Finish(v, blocked, mode, o, h).0 != Some(20)
  {
    hide Validate;
    hide OptionProblem;
  }

  /**
   A token counts once: after a run in which the attestation held, no run that starts from the
   state file it left behind exits 0 with the same token.
   */
  lemma {:induction false} TokenCountsOnce(v: Verdict, blocked: nat, mode: HitlMode, o: Options, h: Host,
                                           v2: Verdict, blocked2: nat, mode2: HitlMode, o2: Options, h2: Host)
    requires !o.ring.Ring0? && !o2.ring.Ring0? && Attested(o, h)
    requires h2.tokenText == h.tokenText
    requires h2.stateText == Finish(v, blocked, mode, o, h).1
    ensures Finish(v2, blocked2, mode2, o2, h2).0 != Some(0)
  {
    hide C.Lines;
    hide C.FieldsOf;
    hide StoredC;
    hide Canonical;
    hide Validate;
    hide OptionProblem;
    hide HasNul;
    var c := C.FieldsOf(C.Lines(h.tokenText)).counter.value;
    AttestedIsAccept(o, h);
    assert h2.stateText == Canonical(c);
    CounterFits(h.tokenText);
    StoredCCanonical(c);
    FinishZero(v2, blocked2, mode2, o2, h2);
  }

  lemma {:induction false} CounterFits(text: string)
    ensures var f := C.FieldsOf(C.Lines(text)); f.counter.Some? ==> FitsI64(f.counter.value)
  {
    hide C.Lines;
    CounterFitsIn(C.Lines(text));
  }

  lemma {:induction false} CounterFitsIn(lines: seq<string>)
    ensures var c := FirstSome(lines, C.Counter); c.Some? ==> FitsI64(c.value)
  {
    hide StrToLL;
    if lines != [] {
      CounterFitsIn(lines[1..]);
    }
  }

  /** The replay state changes only when the attestation held, whatever the scan concluded. */
  lemma {:induction false} StateChangesOnlyWhenAttested(v: Verdict, blocked: nat, mode: HitlMode, o: Options, h: Host)
    ensures Finish(v, blocked, mode, o, h).1 ==
      if !o.ring.Ring0? && Attested(o, h) then Canonical(C.FieldsOf(C.Lines(h.tokenText)).counter.value)
      else h.stateText
  {
    hide C.Lines;
    hide C.FieldsOf;
    hide Canonical;
    hide Validate;
    hide OptionProblem;
    if !o.ring.Ring0? {
      AttestedIsAccept(o, h);
    }
    assert Attested(o, h) ==> C.FieldsOf(C.Lines(h.tokenText)).counter.Some?;
    hide Attested;
  }
}
