/**
 The replay counter: reading and writing the state file, the C protocol run by any number of
 processes under `fcntl` locking, and the atomic object it implements.
 */
module Replay {
  import opened Common
  import opened Numerals
  import opened Token
  import TokenZig

  // ------------------------------------------------------------ the state file

  /** What an accepting validator writes. */
  function Canonical(counter: int): string { Dec(counter) + "\n" }

  /** The stored counter as C reads it: `pread` of at most 127 bytes, then `strtoll`; -1 if there is none. */
  function StoredC(text: string): int {
    var buf := if |text| > 127 then text[..127] else text;
    match StrToLL(buf[..FirstIndex(buf, '\0')])
    case None => -1
    case Some(v) => v
  }

  /** The stored counter as Zig reads it; the outer `None` is a first line that does not leave room for its end in the buffer. */
  function StoredZig(text: string): Option<int> {
    if text == [] then Some(-1) else
    var i := FirstIndex(text, '\n');
    if i >= 128 then None else
    match ZigParseInt(TokenZig.TrimLine(text[..i]))
    case None => Some(-1)
    case Some(v) => Some(v)
  }

  /** The stored text always parses back to the counter it was written for. */
  lemma {:induction false} StoredCCanonical(c: int)
    requires FitsI64(c)
    ensures StoredC(Canonical(c)) == c
  {
    hide StrToLL;
    hide Dec;
    var text := Canonical(c);
    DecLength(c);
    DecPlain(c);
    StrToLLDec(c, "\n");
    FirstIndexAbsent(text, '\0');
    assert text[..|text|] == text;
    assert !IsDigit('\n');
  }

  lemma {:induction false} StoredZigCanonical(c: int)
    requires FitsI64(c)
    ensures StoredZig(Canonical(c)) == Some(c)
  {
    hide ZigParseInt;
    hide Dec;
    var text := Canonical(c);
    DecLength(c);
    DecPlain(c);
    ZigParseIntDec(c);
    FirstIndexOf(Dec(c), '\n', "");
    assert Dec(c) + ['\n'] + "" == text;
    assert text[..|Dec(c)|] == Dec(c);
    assert TokenZig.TrimLine(Dec(c)) == Dec(c);
  }

  lemma StoredEmpty()
    ensures StoredC("") == -1 && StoredZig("") == Some(-1)
  {
    assert ""[..0] == "";
  }

  /** A state file no validator has touched, or one a validator wrote. */
  ghost predicate WellKept(text: string) {
    text == "" || exists c :: FitsI64(c) && text == Canonical(c)
  }

  lemma {:induction false} BothReadTheSame(text: string)
    requires WellKept(text)
    ensures StoredZig(text) == Some(StoredC(text)) && FitsI64(StoredC(text))
  {
    hide StoredC;
    hide StoredZig;
    hide Canonical;
    if text == "" {
      StoredEmpty();
    } else {
      var c :| FitsI64(c) && text == Canonical(c);
      StoredCCanonical(c);
      StoredZigCanonical(c);
    }
  }

  // ------------------------------------------------------------ the atomic object

  type Pid = nat

  /** The calls of a sequence that are accepted when each runs alone, one after the other. */
  ghost function AcceptedOf(counters: map<Pid, int>, start: int, calls: seq<Pid>): (r: seq<Pid>)
    requires forall i :: 0 <= i < |calls| ==> calls[i] in counters
    ensures forall i :: 0 <= i < |r| ==> r[i] in calls
  {
    if calls == [] then [] else
    var k := |calls| - 1;
    var before := AcceptedOf(counters, start, calls[..k]);
    if counters[calls[k]] > LastOf(counters, start, before) then before + [calls[k]] else before
  }

  /** The counter in force after those acceptances. */
  ghost function LastOf(counters: map<Pid, int>, start: int, accepted: seq<Pid>): int
    requires forall i :: 0 <= i < |accepted| ==> accepted[i] in counters
  {
    if accepted == [] then start else counters[accepted[|accepted| - 1]]
  }

  /** Accepted counters strictly increase from the stored one on, so none is accepted twice. */
  lemma {:induction false} AcceptedIncrease(counters: map<Pid, int>, start: int, calls: seq<Pid>, r: seq<Pid>)
    requires forall i :: 0 <= i < |calls| ==> calls[i] in counters
    requires r == AcceptedOf(counters, start, calls)
    ensures forall i :: 0 <= i < |r| ==> counters[r[i]] > start
    ensures forall i, j :: 0 <= i < j < |r| ==> counters[r[i]] < counters[r[j]]
  {
    if calls != [] {
      var k := |calls| - 1;
      var before := AcceptedOf(counters, start, calls[..k]);
      AcceptedIncrease(counters, start, calls[..k], before);
      assert forall i :: 0 <= i < |before| ==> counters[before[i]] <= LastOf(counters, start, before);
    }
  }

  // ------------------------------------------------------------ the protocol

  /** Where a process stands between its system calls. */
  datatype Phase =
    | Idle
    | Opened
    | Locked
    | HasRead(last: int)
    | Truncated
    | Written
    | Returned(accepted: bool)

  /** `locks` is the order in which the lock was granted, `accepts` the order of the writes. */
  datatype World = World(
    file: string, owner: Option<Pid>, phases: map<Pid, Phase>, locks: seq<Pid>, accepts: seq<Pid>)

  function Move(w: World, p: Pid, to: Phase): World { w.(phases := w.phases[p := to]) }

  /**
   One system call of process `p`, which validates a token with counter `counters[p]`. A process
   that waits for the lock, or has returned, stays where it is.
   */
  function StepOf(counters: map<Pid, int>, w: World, p: Pid): World
    requires p in counters && p in w.phases
  {
    var c := counters[p];
    match w.phases[p]
    case Idle => Move(w, p, Opened)
    case Opened =>
      if w.owner.Some? then w
      else Move(w, p, Locked).(owner := Some(p), locks := w.locks + [p])
    case Locked => Move(w, p, HasRead(StoredC(w.file)))
    case HasRead(last) =>
      if c <= last then Move(w, p, Returned(false)).(owner := None)
      else Move(w, p, Truncated).(file := "")
    case Truncated => Move(w, p, Written).(file := Canonical(c), accepts := w.accepts + [p])
    case Written => Move(w, p, Returned(true)).(owner := None)
    case Returned(_) => w
  }

  /** Every interleaving is a schedule that says which process moves next. */
  function Interleave(counters: map<Pid, int>, w: World, schedule: seq<Pid>): World
    requires w.phases.Keys == counters.Keys
    requires forall i :: 0 <= i < |schedule| ==> schedule[i] in counters
    decreases |schedule|
  {
    if schedule == [] then w
    else Interleave(counters, StepOf(counters, w, schedule[0]), schedule[1..])
  }

  ghost predicate Initial(counters: map<Pid, int>, w: World) {
    && w.phases.Keys == counters.Keys
    && (forall p :: p in counters ==> w.phases[p].Idle? && FitsI64(counters[p]))
    && w.owner.None? && w.locks == [] && w.accepts == [] && WellKept(w.file)
  }

  // ------------------------------------------------------------ the invariant

  predicate HoldsLock(phase: Phase) {
    phase.Locked? || phase.HasRead? || phase.Truncated? || phase.Written?
  }

  /** The owner has not yet settled its own call. */
  predicate Undecided(w: World) {
    && w.owner.Some? && w.owner.value in w.phases
    && (w.phases[w.owner.value].Locked? || w.phases[w.owner.value].HasRead? || w.phases[w.owner.value].Truncated?)
  }

  /** The calls whose outcome is settled, in lock order. */
  function Settled(w: World): seq<Pid> {
    if Undecided(w) && |w.locks| > 0 then w.locks[..|w.locks| - 1] else w.locks
  }

  /** What the file holds, seen from the process that has the lock. */
  ghost predicate FileOk(counters: map<Pid, int>, w: World, last: int) {
    if Undecided(w) && w.phases[w.owner.value].Truncated? then
      w.owner.value in counters && counters[w.owner.value] > last && w.file == ""
    else
      && StoredC(w.file) == last
      && (Undecided(w) && w.phases[w.owner.value].HasRead? ==> w.phases[w.owner.value].last == last)
  }

  ghost predicate OwnerOk(w: World) {
    && (forall p :: p in w.phases ==> (HoldsLock(w.phases[p]) <==> w.owner == Some(p)))
    && (w.owner.Some? ==> w.owner.value in w.phases && |w.locks| > 0 && w.locks[|w.locks| - 1] == w.owner.value)
  }

  /** Exactly the settled, accepted calls are logged, and each process has the outcome the log gives it. */
  ghost predicate OutcomesOk(w: World) {
    && (forall p :: p in w.phases ==> (p in w.accepts <==> w.phases[p].Written? || w.phases[p] == Returned(true)))
    && (forall p :: p in w.phases ==> (p in w.locks <==> HoldsLock(w.phases[p]) || w.phases[p].Returned?))
  }

  ghost predicate Inv(counters: map<Pid, int>, start: int, w: World) {
    && w.phases.Keys == counters.Keys
    && (forall p :: p in counters ==> FitsI64(counters[p]))
    && (forall i :: 0 <= i < |w.locks| ==> w.locks[i] in counters)
    && OwnerOk(w) && OutcomesOk(w)
    && w.accepts == AcceptedOf(counters, start, Settled(w))
    && FileOk(counters, w, LastOf(counters, start, w.accepts))
  }

  lemma InitialInv(counters: map<Pid, int>, w: World)
    requires Initial(counters, w)
    ensures Inv(counters, StoredC(w.file), w)
  {
    hide StoredC;
  }

  lemma {:induction false} StepInv(counters: map<Pid, int>, start: int, w: World, p: Pid)
    requires Inv(counters, start, w) && p in counters
    ensures Inv(counters, start, StepOf(counters, w, p))
  {
    match w.phases[p]
    case Idle => OpenInv(counters, start, w, p);
    case Opened => LockInv(counters, start, w, p);
    case Locked => ReadInv(counters, start, w, p);
    case HasRead(_) => CompareInv(counters, start, w, p);
    case Truncated => WriteInv(counters, start, w, p);
    case Written => CloseInv(counters, start, w, p);
    case Returned(_) =>
  }

  lemma OpenInv(counters: map<Pid, int>, start: int, w: World, p: Pid)
    requires Inv(counters, start, w) && p in counters && w.phases[p].Idle?
    ensures Inv(counters, start, StepOf(counters, w, p))
  {
    hide StoredC;
    hide AcceptedOf;
    assert Settled(StepOf(counters, w, p)) == Settled(w);
  }

  lemma LockInv(counters: map<Pid, int>, start: int, w: World, p: Pid)
    requires Inv(counters, start, w) && p in counters && w.phases[p].Opened?
    ensures Inv(counters, start, StepOf(counters, w, p))
  {
    hide StoredC;
    hide AcceptedOf;
    var t := StepOf(counters, w, p);
    if w.owner.None? {
      assert Settled(t) == w.locks == Settled(w);
    }
  }

  lemma ReadInv(counters: map<Pid, int>, start: int, w: World, p: Pid)
    requires Inv(counters, start, w) && p in counters && w.phases[p].Locked?
    ensures Inv(counters, start, StepOf(counters, w, p))
  {
    hide StoredC;
    hide AcceptedOf;
    assert w.owner == Some(p);
    assert Settled(StepOf(counters, w, p)) == Settled(w);
  }

  lemma CompareInv(counters: map<Pid, int>, start: int, w: World, p: Pid)
    requires Inv(counters, start, w) && p in counters && w.phases[p].HasRead?
    ensures Inv(counters, start, StepOf(counters, w, p))
  {
    if counters[p] <= w.phases[p].last {
      RejectInv(counters, start, w, p);
    } else {
      TruncateInv(counters, start, w, p);
    }
  }

  lemma RejectInv(counters: map<Pid, int>, start: int, w: World, p: Pid)
    requires Inv(counters, start, w) && p in counters && w.phases[p].HasRead? && counters[p] <= w.phases[p].last
    ensures Inv(counters, start, StepOf(counters, w, p))
  {
    hide StoredC;
    hide AcceptedOf;
    assert w.owner == Some(p);
    var t := StepOf(counters, w, p);
    assert Settled(t) == w.locks && w.locks[..|w.locks| - 1] == Settled(w);
    RejectedLast(counters, start, w.locks);
  }

  lemma TruncateInv(counters: map<Pid, int>, start: int, w: World, p: Pid)
    requires Inv(counters, start, w) && p in counters && w.phases[p].HasRead? && counters[p] > w.phases[p].last
    ensures Inv(counters, start, StepOf(counters, w, p))
  {
    hide StoredC;
    hide AcceptedOf;
    assert w.owner == Some(p);
    assert Settled(StepOf(counters, w, p)) == Settled(w);
  }

  /** A call whose counter does not exceed the one in force is not accepted. */
  lemma {:induction false} RejectedLast(counters: map<Pid, int>, start: int, calls: seq<Pid>)
    requires |calls| > 0 && forall i :: 0 <= i < |calls| ==> calls[i] in counters
    requires var before := AcceptedOf(counters, start, calls[..|calls| - 1]);
      counters[calls[|calls| - 1]] <= LastOf(counters, start, before)
    ensures AcceptedOf(counters, start, calls) == AcceptedOf(counters, start, calls[..|calls| - 1])
  {
  }

  lemma WriteInv(counters: map<Pid, int>, start: int, w: World, p: Pid)
    requires Inv(counters, start, w) && p in counters && w.phases[p].Truncated?
    ensures Inv(counters, start, StepOf(counters, w, p))
  {
    hide StoredC;
    hide Canonical;
    assert w.owner == Some(p);
    var t := StepOf(counters, w, p);
    assert Settled(t) == w.locks && w.locks[..|w.locks| - 1] == Settled(w);
    StoredCCanonical(counters[p]);
  }

  lemma CloseInv(counters: map<Pid, int>, start: int, w: World, p: Pid)
    requires Inv(counters, start, w) && p in counters && w.phases[p].Written?
    ensures Inv(counters, start, StepOf(counters, w, p))
  {
    hide StoredC;
    hide AcceptedOf;
    assert w.owner == Some(p);
    assert Settled(StepOf(counters, w, p)) == Settled(w);
  }

  lemma {:induction false} RunInv(counters: map<Pid, int>, start: int, w: World, schedule: seq<Pid>)
    requires Inv(counters, start, w) && forall i :: 0 <= i < |schedule| ==> schedule[i] in counters
    ensures Inv(counters, start, Interleave(counters, w, schedule))
    decreases |schedule|
  {
    hide StepOf;
    if schedule != [] {
      StepInv(counters, start, w, schedule[0]);
      StepKeys(counters, w, schedule[0]);
      RunInv(counters, start, StepOf(counters, w, schedule[0]), schedule[1..]);
    }
  }

  lemma StepKeys(counters: map<Pid, int>, w: World, p: Pid)
    requires w.phases.Keys == counters.Keys && p in counters
    ensures StepOf(counters, w, p).phases.Keys == counters.Keys
  {
  }

  // ------------------------------------------------------------ what every interleaving guarantees

  predicate IsAccepted(w: World, p: Pid) { p in w.phases && w.phases[p] == Returned(true) }

  /** No process is between truncating and rewriting the file. */
  predicate Quiescent(w: World) {
    forall p :: p in w.phases ==> !w.phases[p].Truncated?
  }

  /** The log holds exactly the calls that wrote their counter or returned 1. */
  ghost predicate LogIsOutcome(w: World) {
    forall p :: p in w.phases ==> (p in w.accepts <==> w.phases[p].Written? || w.phases[p] == Returned(true))
  }

  /** The accepted calls are those the atomic object accepts when the calls run one after the other in lock order. */
  ghost predicate Linearized(counters: map<Pid, int>, start: int, w: World) {
    && (forall i :: 0 <= i < |Settled(w)| ==> Settled(w)[i] in counters)
    && w.accepts == AcceptedOf(counters, start, Settled(w))
  }

  /** Accepted counters strictly increase above the one stored at the start. */
  ghost predicate Increasing(counters: map<Pid, int>, start: int, accepts: seq<Pid>) {
    && (forall i :: 0 <= i < |accepts| ==> accepts[i] in counters && counters[accepts[i]] > start)
    && (forall i, j :: 0 <= i < j < |accepts| ==> counters[accepts[i]] < counters[accepts[j]])
  }

  lemma {:induction false} AcceptsIncrease(counters: map<Pid, int>, start: int, w: World)
    requires Inv(counters, start, w)
    ensures Linearized(counters, start, w) && Increasing(counters, start, w.accepts) && LogIsOutcome(w)
  {
    hide FileOk;
    hide AcceptedOf;
    AcceptedIncrease(counters, start, Settled(w), w.accepts);
  }

  /** No counter is accepted twice. */
  lemma {:induction false} AcceptedOnce(counters: map<Pid, int>, start: int, accepts: seq<Pid>, p: Pid, q: Pid)
    requires Increasing(counters, start, accepts) && p in accepts && q in accepts && p != q
    ensures counters[p] != counters[q]
  {
    var i :| 0 <= i < |accepts| && accepts[i] == p;
    var j :| 0 <= j < |accepts| && accepts[j] == q;
    assert i < j || j < i;
  }

  lemma {:induction false} FileIsLast(counters: map<Pid, int>, start: int, w: World)
    requires Inv(counters, start, w) && Quiescent(w)
    ensures StoredC(w.file) == LastOf(counters, start, w.accepts)
  {
    hide StoredC;
    hide AcceptedOf;
    hide OutcomesOk;
  }

  /**
   For every interleaving of any number of validators: the accepted calls are those the atomic
   object accepts when the calls run one after the other in lock order, and exactly those have
   written their counter or returned 1; their counters strictly increase above the one stored at
   the start; no two calls that returned 1 share a counter; and whenever no rewrite is under way
   the file parses to the last accepted counter.
   */
  lemma {:induction false} ReplaySafety(counters: map<Pid, int>, w0: World, schedule: seq<Pid>)
    requires Initial(counters, w0) && forall i :: 0 <= i < |schedule| ==> schedule[i] in counters
    ensures var w, start := Interleave(counters, w0, schedule), StoredC(w0.file);
      && Linearized(counters, start, w)
      && Increasing(counters, start, w.accepts)
      && LogIsOutcome(w)
      && (forall p, q :: p in counters && q in counters && p != q && IsAccepted(w, p) && IsAccepted(w, q)
            ==> counters[p] != counters[q])
      && (Quiescent(w) ==> StoredC(w.file) == LastOf(counters, start, w.accepts))
  {
    hide StoredC;
    hide StepOf;
    hide Inv;
    var w, start := Interleave(counters, w0, schedule), StoredC(w0.file);
    InitialInv(counters, w0);
    RunInv(counters, start, w0, schedule);
    AcceptsIncrease(counters, start, w);
    forall p, q | p in counters && q in counters && p != q && IsAccepted(w, p) && IsAccepted(w, q)
      ensures counters[p] != counters[q]
    {
      AcceptedOnce(counters, start, w.accepts, p, q);
    }
    if Quiescent(w) {
      FileIsLast(counters, start, w);
    }
  }

  /** The process has started to rewrite the file and can only end up accepted. */
  predicate Committed(phase: Phase) { phase.Truncated? || phase.Written? || phase == Returned(true) }

  lemma {:induction false} CommittedStays(counters: map<Pid, int>, w: World, schedule: seq<Pid>, p: Pid)
    requires w.phases.Keys == counters.Keys && p in counters && Committed(w.phases[p])
    requires forall i :: 0 <= i < |schedule| ==> schedule[i] in counters
    ensures var t := Interleave(counters, w, schedule); p in t.phases && Committed(t.phases[p])
    decreases |schedule|
  {
    hide StoredC;
    hide Canonical;
    if schedule != [] {
      StepKeys(counters, w, schedule[0]);
      CommittedStays(counters, StepOf(counters, w, schedule[0]), schedule[1..], p);
    }
  }

  /** A step that changes the file belongs to a call that is never rejected: rejected calls leave it as it was. */
  lemma {:induction false} RejectedCallsLeaveTheFile(counters: map<Pid, int>, w: World, p: Pid, rest: seq<Pid>)
    requires w.phases.Keys == counters.Keys && p in counters
    requires forall i :: 0 <= i < |rest| ==> rest[i] in counters
    requires StepOf(counters, w, p).file != w.file
    ensures StepOf(counters, w, p).phases.Keys == counters.Keys
    ensures p in Interleave(counters, StepOf(counters, w, p), rest).phases
    ensures Interleave(counters, StepOf(counters, w, p), rest).phases[p] != Returned(false)
  {
    hide StoredC;
    hide Canonical;
    StepKeys(counters, w, p);
    CommittedStays(counters, StepOf(counters, w, p), rest, p);
  }

  /** Each acceptance uses up counters: the distance to LLONG_MAX strictly shrinks and never goes below zero. */
  lemma {:induction false} AcceptanceUsesUpCounters(counters: map<Pid, int>, start: int, w: World, p: Pid)
    requires Inv(counters, start, w) && p in counters && w.phases[p].Truncated?
    ensures var t := StepOf(counters, w, p);
      && (forall i :: 0 <= i < |t.accepts| ==> t.accepts[i] in counters)
      && 0 <= LLONG_MAX - LastOf(counters, start, t.accepts) < LLONG_MAX - LastOf(counters, start, w.accepts)
  {
    hide StoredC;
    hide Canonical;
    assert w.owner == Some(p);
  }

  /** The protocol never deadlocks: while a call is unfinished, some process can move. */
  lemma DeadlockFree(counters: map<Pid, int>, start: int, w: World, p: Pid) returns (q: Pid)
    requires Inv(counters, start, w) && p in counters && !w.phases[p].Returned?
    ensures q in counters && StepOf(counters, w, q) != w
  {
    hide StoredC;
    hide Canonical;
    hide AcceptedOf;
    if w.owner.Some? {
      q := w.owner.value;
      assert StepOf(counters, w, q).phases[q] != w.phases[q];
    } else {
      q := p;
      assert StepOf(counters, w, q).phases[q] != w.phases[q];
    }
  }
}
