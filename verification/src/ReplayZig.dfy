/**
 The replay counter as Zig keeps it: read, truncate and write without a lock. Validators whose
 read-to-write windows do not overlap accept strictly increasing counters; two that overlap can
 accept the same one.
 */
module ReplayZig {
  import opened Common
  import opened Numerals
  import opened Token
  import opened Replay

  datatype Stage = Fresh | Compared(last: int) | Emptied | Done(accepted: bool)

  datatype Disk = Disk(file: string, stages: map<Pid, Stage>, accepts: seq<Pid>)

  function Advance(d: Disk, p: Pid, to: Stage): Disk { d.(stages := d.stages[p := to]) }

  /** Writing at the start of a file leaves the bytes past the end of the new text in place. */
  function Overwrite(file: string, text: string): string {
    if |file| > |text| then text + file[|text|..] else text
  }

  /** One file operation of process `p`, which validates a token with counter `counters[p]`. */
  function ZigStep(counters: map<Pid, int>, d: Disk, p: Pid): Disk
    requires p in counters && p in d.stages
  {
    match d.stages[p]
    case Fresh =>
      (match StoredZig(d.file)
       case None => Advance(d, p, Done(false))
       case Some(last) => Advance(d, p, if counters[p] <= last then Done(false) else Compared(last)))
    case Compared(_) => Advance(d, p, Emptied).(file := "")
    case Emptied =>
      Advance(d, p, Done(true)).(file := Overwrite(d.file, Canonical(counters[p])), accepts := d.accepts + [p])
    case Done(_) => d
  }

  function ZigRun(counters: map<Pid, int>, d: Disk, schedule: seq<Pid>): Disk
    requires d.stages.Keys == counters.Keys
    requires forall i :: 0 <= i < |schedule| ==> schedule[i] in counters
    decreases |schedule|
  {
    if schedule == [] then d else ZigRun(counters, ZigStep(counters, d, schedule[0]), schedule[1..])
  }

  ghost predicate ZigInitial(counters: map<Pid, int>, d: Disk) {
    && d.stages.Keys == counters.Keys
    && (forall p :: p in counters ==> d.stages[p].Fresh? && FitsI64(counters[p]))
    && d.accepts == [] && WellKept(d.file)
  }

  predicate InWindow(stage: Stage) { stage.Compared? || stage.Emptied? }

  lemma ZigStepKeys(counters: map<Pid, int>, d: Disk, p: Pid)
    requires d.stages.Keys == counters.Keys && p in counters
    ensures ZigStep(counters, d, p).stages.Keys == counters.Keys
  {
    hide StoredZig;
    hide Overwrite;
  }

  // ------------------------------------------------------------ windows one at a time

  /** No process starts to read while another is between its read and its write. */
  predicate WindowsApart(counters: map<Pid, int>, d: Disk, schedule: seq<Pid>)
    requires d.stages.Keys == counters.Keys
    requires forall i :: 0 <= i < |schedule| ==> schedule[i] in counters
    decreases |schedule|
  {
    schedule == [] ||
    (var p := schedule[0];
     && (d.stages[p].Fresh? ==> forall q :: q in d.stages ==> !InWindow(d.stages[q]))
     && WindowsApart(counters, ZigStep(counters, d, p), schedule[1..]))
  }

  /** What the file holds while at most one window is open. */
  ghost predicate DiskOk(counters: map<Pid, int>, d: Disk, last: int)
    requires d.stages.Keys == counters.Keys
  {
    && (forall p, q :: p in counters && q in counters && InWindow(d.stages[p]) && InWindow(d.stages[q]) ==> p == q)
    && (forall p :: p in counters && InWindow(d.stages[p]) ==> counters[p] > last)
    && (if exists p :: p in counters && d.stages[p].Emptied? then d.file == ""
        else WellKept(d.file) && StoredZig(d.file) == Some(last))
  }

  ghost predicate ZigInv(counters: map<Pid, int>, start: int, d: Disk) {
    && d.stages.Keys == counters.Keys
    && (forall p :: p in counters ==> FitsI64(counters[p]))
    && Increasing(counters, start, d.accepts)
    && (forall p :: p in counters ==> (p in d.accepts <==> d.stages[p] == Done(true)))
    && DiskOk(counters, d, LastOf(counters, start, d.accepts))
  }

  lemma {:induction false} FreshInv(counters: map<Pid, int>, start: int, d: Disk, p: Pid)
    requires ZigInv(counters, start, d) && p in counters && d.stages[p].Fresh?
    requires forall q :: q in d.stages ==> !InWindow(d.stages[q])
    ensures ZigInv(counters, start, ZigStep(counters, d, p))
  {
    hide StoredZig;
    hide WellKept;
  }

  lemma {:induction false} EmptyInv(counters: map<Pid, int>, start: int, d: Disk, p: Pid)
    requires ZigInv(counters, start, d) && p in counters && d.stages[p].Compared?
    ensures ZigInv(counters, start, ZigStep(counters, d, p))
  {
    hide StoredZig;
    hide WellKept;
    var t := ZigStep(counters, d, p);
    assert t.stages[p].Emptied?;
  }

  lemma {:induction false} WriteInv(counters: map<Pid, int>, start: int, d: Disk, p: Pid)
    requires ZigInv(counters, start, d) && p in counters && d.stages[p].Emptied?
    ensures ZigInv(counters, start, ZigStep(counters, d, p))
  {
    hide StoredZig;
    hide Canonical;
    var t := ZigStep(counters, d, p);
    StoredZigCanonical(counters[p]);
    assert t.file == Canonical(counters[p]);
    assert InWindow(d.stages[p]);
    assert forall i :: 0 <= i < |d.accepts| ==> counters[d.accepts[i]] <= LastOf(counters, start, d.accepts);
  }

  lemma {:induction false} ZigRunInv(counters: map<Pid, int>, start: int, d: Disk, schedule: seq<Pid>)
    requires ZigInv(counters, start, d) && forall i :: 0 <= i < |schedule| ==> schedule[i] in counters
    requires WindowsApart(counters, d, schedule)
    ensures ZigInv(counters, start, ZigRun(counters, d, schedule))
    decreases |schedule|
  {
    hide DiskOk;
    hide Increasing;
    if schedule != [] {
      var p := schedule[0];
      match d.stages[p] {
        case Fresh => FreshInv(counters, start, d, p);
        case Compared(_) => EmptyInv(counters, start, d, p);
        case Emptied => WriteInv(counters, start, d, p);
        case Done(_) =>
      }
      hide ZigStep;
      ZigRunInv(counters, start, ZigStep(counters, d, p), schedule[1..]);
    }
  }

  /**
   For every schedule in which no read-to-write window overlaps another, accepted counters strictly
   increase above the stored one, exactly the calls that returned 1 are accepted, no two of them
   share a counter, and outside a rewrite the file parses to the last accepted counter.
   */
  lemma {:induction false} ApartIsSafe(counters: map<Pid, int>, d0: Disk, schedule: seq<Pid>)
    requires ZigInitial(counters, d0) && forall i :: 0 <= i < |schedule| ==> schedule[i] in counters
    requires WindowsApart(counters, d0, schedule)
    ensures var d, start := ZigRun(counters, d0, schedule), StoredZig(d0.file);
      && start.Some?
      && Increasing(counters, start.value, d.accepts)
      && (forall p :: p in counters ==> p in d.stages && (p in d.accepts <==> d.stages[p] == Done(true)))
      && (forall p, q :: p in d.accepts && q in d.accepts && p != q ==> counters[p] != counters[q])
      && ((forall p :: p in counters ==> p in d.stages && !d.stages[p].Emptied?) ==>
            StoredZig(d.file) == Some(LastOf(counters, start.value, d.accepts)))
  {
    hide StoredZig;
    hide ZigStep;
    var d := ZigRun(counters, d0, schedule);
    StartInv(counters, d0);
    var start := StoredZig(d0.file).value;
    ZigRunInv(counters, start, d0, schedule);
    hide DiskOk;
    forall p, q | p in d.accepts && q in d.accepts && p != q ensures counters[p] != counters[q] {
      AcceptedOnce(counters, start, d.accepts, p, q);
    }
    if forall p :: p in counters ==> p in d.stages && !d.stages[p].Emptied? {
      AtRest(counters, d, LastOf(counters, start, d.accepts));
    }
  }

  lemma StartInv(counters: map<Pid, int>, d: Disk)
    requires ZigInitial(counters, d)
    ensures StoredZig(d.file).Some? && ZigInv(counters, StoredZig(d.file).value, d)
  {
    hide StoredZig;
    BothReadTheSame(d.file);
    hide WellKept;
  }

  lemma AtRest(counters: map<Pid, int>, d: Disk, last: int)
    requires d.stages.Keys == counters.Keys && DiskOk(counters, d, last)
    requires forall p :: p in counters ==> !d.stages[p].Emptied?
    ensures StoredZig(d.file) == Some(last)
  {
    hide StoredZig;
  }

  // ------------------------------------------------------------ schedules

  /** How many of the first `n` steps are steps of `p`. */
  function Count(schedule: seq<Pid>, p: Pid, n: nat): nat
    requires n <= |schedule|
  {
    if n == 0 then 0 else Count(schedule, p, n - 1) + (if schedule[n - 1] == p then 1 else 0)
  }

  /** Step `n` is the first of its process, and `q` is between its first and its third. */
  predicate OverlapAt(schedule: seq<Pid>, n: nat, q: Pid)
    requires n < |schedule|
  {
    Count(schedule, schedule[n], n) == 0 && q != schedule[n] && 1 <= Count(schedule, q, n) <= 2
  }

  /** No process takes its first step while another is between its first and its third. */
  ghost predicate Apart(schedule: seq<Pid>) {
    forall n, q :: 0 <= n < |schedule| ==> !OverlapAt(schedule, n, q)
  }

  /** A schedule of exactly these processes that lets each of them finish. */
  ghost predicate Completes(procs: set<Pid>, schedule: seq<Pid>) {
    && (forall i :: 0 <= i < |schedule| ==> schedule[i] in procs)
    && (forall p :: p in procs ==> Count(schedule, p, |schedule|) >= 3)
  }

  function FreshDisk(procs: set<Pid>, file: string): Disk { Disk(file, map p | p in procs :: Fresh, []) }

  /** The state after the first `n` steps. */
  function After(counters: map<Pid, int>, d: Disk, schedule: seq<Pid>, n: nat): Disk
    requires d.stages.Keys == counters.Keys && n <= |schedule|
    requires forall i :: 0 <= i < |schedule| ==> schedule[i] in counters
  {
    ZigRun(counters, d, schedule[..n])
  }

  lemma {:induction false} ZigRunSnoc(counters: map<Pid, int>, d: Disk, s: seq<Pid>, p: Pid)
    requires d.stages.Keys == counters.Keys && p in counters
    requires forall i :: 0 <= i < |s| ==> s[i] in counters
    ensures ZigRun(counters, d, s).stages.Keys == counters.Keys
    ensures ZigRun(counters, d, s + [p]) == ZigStep(counters, ZigRun(counters, d, s), p)
    decreases |s|
  {
    if s == [] {
      ZigStepKeys(counters, d, p);
      hide ZigStep;
      assert (s + [p])[1..] == [];
    } else {
      ZigStepKeys(counters, d, s[0]);
      hide ZigStep;
      assert (s + [p])[1..] == s[1..] + [p];
      ZigRunSnoc(counters, ZigStep(counters, d, s[0]), s[1..], p);
    }
  }

  lemma {:induction false} AfterStep(counters: map<Pid, int>, d: Disk, schedule: seq<Pid>, n: nat)
    requires d.stages.Keys == counters.Keys && n < |schedule|
    requires forall i :: 0 <= i < |schedule| ==> schedule[i] in counters
    ensures After(counters, d, schedule, n).stages.Keys == counters.Keys
    ensures After(counters, d, schedule, n + 1) == ZigStep(counters, After(counters, d, schedule, n), schedule[n])
  {
    hide ZigStep;
    assert schedule[..n + 1] == schedule[..n] + [schedule[n]];
    ZigRunSnoc(counters, d, schedule[..n], schedule[n]);
  }

  lemma AfterAll(counters: map<Pid, int>, d: Disk, schedule: seq<Pid>)
    requires d.stages.Keys == counters.Keys
    requires forall i :: 0 <= i < |schedule| ==> schedule[i] in counters
    ensures After(counters, d, schedule, |schedule|) == ZigRun(counters, d, schedule)
    ensures After(counters, d, schedule, 0) == d
  {
    assert schedule[..|schedule|] == schedule;
  }

  // ------------------------------------------------------------ apart is safe

  /** What the number of its steps says about a process. */
  predicate StageFits(stage: Stage, steps: nat) {
    && (stage.Fresh? <==> steps == 0)
    && (InWindow(stage) ==> 1 <= steps <= 2)
    && (stage.Compared? ==> steps == 1)
  }

  lemma {:induction false} StagesFit(counters: map<Pid, int>, d: Disk, schedule: seq<Pid>, n: nat)
    requires d.stages.Keys == counters.Keys && n <= |schedule|
    requires forall i :: 0 <= i < |schedule| ==> schedule[i] in counters
    requires forall p :: p in counters ==> d.stages[p].Fresh?
    ensures After(counters, d, schedule, n).stages.Keys == counters.Keys
    ensures forall p :: p in counters ==>
      StageFits(After(counters, d, schedule, n).stages[p], Count(schedule, p, n))
  {
    hide StoredZig;
    hide Overwrite;
    if n > 0 {
      StagesFit(counters, d, schedule, n - 1);
      AfterStep(counters, d, schedule, n - 1);
      ZigStepKeys(counters, After(counters, d, schedule, n - 1), schedule[n - 1]);
      hide After;
    }
  }

  lemma {:induction false} ApartWindows(counters: map<Pid, int>, d: Disk, schedule: seq<Pid>, n: nat)
    requires d.stages.Keys == counters.Keys && n <= |schedule| && Apart(schedule)
    requires forall i :: 0 <= i < |schedule| ==> schedule[i] in counters
    requires forall p :: p in counters ==> d.stages[p].Fresh?
    ensures After(counters, d, schedule, n).stages.Keys == counters.Keys
    ensures WindowsApart(counters, After(counters, d, schedule, n), schedule[n..])
    decreases |schedule| - n
  {
    StagesFit(counters, d, schedule, n);
    if n < |schedule| {
      AfterStep(counters, d, schedule, n);
      ApartWindows(counters, d, schedule, n + 1);
      var w, p := After(counters, d, schedule, n), schedule[n];
      hide After;
      hide ZigStep;
      forall q | q in w.stages && w.stages[p].Fresh? ensures !InWindow(w.stages[q]) {
        assert !OverlapAt(schedule, n, q);
      }
      assert schedule[n..][1..] == schedule[n + 1..];
    }
  }

  // ------------------------------------------------------------ an overlap is not

  /** Processes `p` and `q` hold the counter `c`; everybody else holds one that is never accepted. */
  function Rivals(procs: set<Pid>, p: Pid, q: Pid, c: int): map<Pid, int> {
    map x | x in procs :: if x == p || x == q then c else LLONG_MIN
  }

  /** A rival reads a smaller counter, empties the file and writes; anybody else is rejected. */
  predicate RivalStage(stage: Stage, steps: nat) {
    match steps
    case 0 => stage.Fresh?
    case 1 => stage.Compared?
    case 2 => stage.Emptied?
    case _ => stage == Done(true)
  }

  predicate OtherStage(stage: Stage, steps: nat) { if steps == 0 then stage.Fresh? else stage == Done(false) }

  /** The file holds what it held until a rival empties it, and then nothing or the counter of a rival that wrote. */
  predicate RivalFile(file: string, start: string, c: int, m: nat, n: nat) {
    if m < 2 && n < 2 then file == start
    else file == "" || ((m >= 3 || n >= 3) && file == Canonical(c))
  }

  /** The log holds the rivals that wrote and nobody else. */
  predicate RivalLog(accepts: seq<Pid>, p: Pid, q: Pid, pWrote: bool, qWrote: bool) {
    match (pWrote, qWrote)
    case (false, false) => accepts == []
    case (true, false) => accepts == [p]
    case (false, true) => accepts == [q]
    case (true, true) => accepts == [p, q] || accepts == [q, p]
  }

  ghost predicate Rivalry(procs: set<Pid>, schedule: seq<Pid>, p: Pid, q: Pid, c: int, start: string, n: nat, d: Disk)
    requires n <= |schedule|
  {
    && d.stages.Keys == procs && p in procs && q in procs
    && RivalStage(d.stages[p], Count(schedule, p, n)) && RivalStage(d.stages[q], Count(schedule, q, n))
    && (forall x :: x in procs && x != p && x != q ==> OtherStage(d.stages[x], Count(schedule, x, n)))
    && RivalFile(d.file, start, c, Count(schedule, p, n), Count(schedule, q, n))
    && RivalLog(d.accepts, p, q, Count(schedule, p, n) >= 3, Count(schedule, q, n) >= 3)
  }

  lemma {:induction false} CountGrows(schedule: seq<Pid>, p: Pid, m: nat, n: nat)
    requires m <= n <= |schedule|
    ensures Count(schedule, p, m) <= Count(schedule, p, n)
    decreases n - m
  {
    if m < n {
      CountGrows(schedule, p, m, n - 1);
    }
  }

  /** When the rivals take their first steps: `q` before `p` has moved, `p` after that and before `q` writes. */
  predicate ReadsInTime(schedule: seq<Pid>, p: Pid, q: Pid, c: int, n: nat)
    requires n < |schedule|
  {
    var m, k := Count(schedule, p, n), Count(schedule, q, n);
    && (schedule[n] == q && k == 0 ==> m == 0)
    && (schedule[n] == p && m == 0 ==> k == 1 || (k == 2 && c >= 0))
  }

  lemma {:induction false} OverlapReadsInTime(schedule: seq<Pid>, at: nat, q: Pid, c: int, n: nat)
    requires at < |schedule| && OverlapAt(schedule, at, q) && n < |schedule|
    requires c >= 0 || Count(schedule, q, at) == 1
    ensures ReadsInTime(schedule, schedule[at], q, c, n)
  {
    var p := schedule[at];
    if n < at {
      CountGrows(schedule, p, n + 1, at);
    } else if n > at {
      CountGrows(schedule, q, at, n);
      CountGrows(schedule, p, at + 1, n);
    }
  }

  lemma OtherKeepsOut(counters: map<Pid, int>, d: Disk, x: Pid, steps: nat)
    requires x in counters && x in d.stages && counters[x] == LLONG_MIN && OtherStage(d.stages[x], steps)
    ensures var t := ZigStep(counters, d, x);
      && x in t.stages && OtherStage(t.stages[x], steps + 1) && t.stages == d.stages[x := t.stages[x]]
      && t.file == d.file && t.accepts == d.accepts
  {
    StoredZigFits(d.file);
    hide StoredZig;
  }

  lemma StoredZigFits(text: string)
    ensures StoredZig(text).Some? ==> FitsI64(StoredZig(text).value)
  {
  }

  /** One step of a rival that has taken `m` steps while the other has taken `k`. */
  lemma RivalAdvances(counters: map<Pid, int>, d: Disk, x: Pid, c: int, start: string, m: nat, k: nat)
    requires x in counters && x in d.stages && counters[x] == c && RivalStage(d.stages[x], m) && RivalFile(d.file, start, c, m, k)
    requires StoredZig(start).Some? && StoredZig(start).value < c
    requires m == 0 ==> k <= 1 || (k == 2 && c >= 0)
    ensures var t := ZigStep(counters, d, x);
      && x in t.stages && RivalStage(t.stages[x], m + 1) && RivalFile(t.file, start, c, m + 1, k)
      && t.stages == d.stages[x := t.stages[x]] && t.accepts == if m == 2 then d.accepts + [x] else d.accepts
  {
    StoredEmpty();
    hide StoredZig;
    hide Canonical;
  }

  lemma RivalFileSwap(file: string, start: string, c: int, m: nat, n: nat)
    ensures RivalFile(file, start, c, m, n) <==> RivalFile(file, start, c, n, m)
  {
  }

  lemma {:induction false} RivalryStep(procs: set<Pid>, schedule: seq<Pid>, p: Pid, q: Pid, c: int, start: string, n: nat, d: Disk)
    requires n < |schedule| && schedule[n] in procs && p != q
    requires Rivalry(procs, schedule, p, q, c, start, n, d) && ReadsInTime(schedule, p, q, c, n)
    requires StoredZig(start).Some? && StoredZig(start).value < c
    ensures Rivalry(procs, schedule, p, q, c, start, n + 1, ZigStep(Rivals(procs, p, q, c), d, schedule[n]))
  {
    hide StoredZig;
    hide RivalFile;
    hide RivalStage;
    hide OtherStage;
    hide ZigStep;
    var x, counters := schedule[n], Rivals(procs, p, q, c);
    var m, k := Count(schedule, p, n), Count(schedule, q, n);
    if x == p {
      RivalAdvances(counters, d, x, c, start, m, k);
    } else if x == q {
      RivalFileSwap(d.file, start, c, m, k);
      RivalAdvances(counters, d, x, c, start, k, m);
      RivalFileSwap(ZigStep(counters, d, x).file, start, c, m, k + 1);
    } else {
      OtherKeepsOut(counters, d, x, Count(schedule, x, n));
    }
  }

  lemma {:induction false} RivalryLasts(procs: set<Pid>, schedule: seq<Pid>, at: nat, q: Pid, c: int, start: string, n: nat)
    requires Completes(procs, schedule) && at < |schedule| && OverlapAt(schedule, at, q) && q in procs && n <= |schedule|
    requires c >= 0 || Count(schedule, q, at) == 1
    requires StoredZig(start).Some? && StoredZig(start).value < c
    ensures var counters := Rivals(procs, schedule[at], q, c);
      Rivalry(procs, schedule, schedule[at], q, c, start, n, After(counters, FreshDisk(procs, start), schedule, n))
  {
    hide StoredZig;
    hide ZigStep;
    var p := schedule[at];
    var counters, d := Rivals(procs, p, q, c), FreshDisk(procs, start);
    AfterAll(counters, d, schedule);
    if n > 0 {
      RivalryLasts(procs, schedule, at, q, c, start, n - 1);
      OverlapReadsInTime(schedule, at, q, c, n - 1);
      AfterStep(counters, d, schedule, n - 1);
      hide After;
      hide Rivalry;
      RivalryStep(procs, schedule, p, q, c, start, n - 1, After(counters, d, schedule, n - 1));
    }
  }

  /**
   Every overlap admits a counter twice: whatever the file holds, if one process reads while another
   is between its read and its write, both accept any one unused counter they share (a negative one
   if the file has not been emptied yet).
   */
  lemma {:induction false} OverlapAcceptsTwice(procs: set<Pid>, schedule: seq<Pid>, at: nat, q: Pid, c: int, start: string)
    requires Completes(procs, schedule) && at < |schedule| && OverlapAt(schedule, at, q) && q in procs
    requires c >= 0 || Count(schedule, q, at) == 1
    requires StoredZig(start).Some? && StoredZig(start).value < c
    ensures var counters := Rivals(procs, schedule[at], q, c);
      var t := ZigRun(counters, FreshDisk(procs, start), schedule);
      && schedule[at] in t.stages && q in t.stages
      && t.stages[schedule[at]] == Done(true) && t.stages[q] == Done(true)
      && (t.accepts == [schedule[at], q] || t.accepts == [q, schedule[at]])
  {
    hide StoredZig;
    hide ZigStep;
    RivalryLasts(procs, schedule, at, q, c, start, |schedule|);
    AfterAll(Rivals(procs, schedule[at], q, c), FreshDisk(procs, start), schedule);
  }

  /** Two validators that take turns: each accepts the counter both hold. */
  lemma {:induction false} BothAcceptOneCounter(file: string, c: int, p: Pid, q: Pid)
    requires p != q && StoredZig(file).Some? && StoredZig(file).value < c
    ensures var counters, d := map[p := c, q := c], Disk(file, map[p := Fresh, q := Fresh], []);
      var t := ZigRun(counters, d, [p, q, p, q, p, q]);
      t.stages == map[p := Done(true), q := Done(true)] && t.accepts == [p, q]
  {
    hide StoredZig;
    hide ZigStep;
    var procs, schedule := {p, q}, [p, q, p, q, p, q];
    assert Count(schedule, p, 1) == 1 && Count(schedule, q, 1) == 0;
    assert Count(schedule, p, 3) == 2 && Count(schedule, q, 3) == 1;
    assert Count(schedule, p, 5) == 3 && Count(schedule, q, 5) == 2;
    assert Count(schedule, p, 6) == 3 && Count(schedule, q, 6) == 3;
    OverlapAcceptsTwice(procs, schedule, 1, p, c, file);
    assert Rivals(procs, q, p, c) == map[p := c, q := c];
    assert FreshDisk(procs, file) == Disk(file, map[p := Fresh, q := Fresh], []);
    RunKeys(map[p := c, q := c], FreshDisk(procs, file), schedule);
    RivalryLasts(procs, schedule, 1, p, c, file, 5);
    AfterStep(map[p := c, q := c], FreshDisk(procs, file), schedule, 5);
    AfterAll(map[p := c, q := c], FreshDisk(procs, file), schedule);
    LogGrows(map[p := c, q := c], After(map[p := c, q := c], FreshDisk(procs, file), schedule, 5), q);
  }

  /** The log is only ever added to. */
  lemma LogGrows(counters: map<Pid, int>, d: Disk, p: Pid)
    requires p in counters && p in d.stages
    ensures d.accepts <= ZigStep(counters, d, p).accepts
  {
    hide StoredZig;
    hide Overwrite;
  }

  lemma {:induction false} RunKeys(counters: map<Pid, int>, d: Disk, schedule: seq<Pid>)
    requires d.stages.Keys == counters.Keys && forall i :: 0 <= i < |schedule| ==> schedule[i] in counters
    ensures ZigRun(counters, d, schedule).stages.Keys == counters.Keys
    decreases |schedule|
  {
    if schedule != [] {
      ZigStepKeys(counters, d, schedule[0]);
      hide ZigStep;
      RunKeys(counters, ZigStep(counters, d, schedule[0]), schedule[1..]);
    }
  }

  // ------------------------------------------------------------ the exact condition

  /** With these counters and this file, no two calls that return 1 share a counter. */
  ghost predicate SafeWith(procs: set<Pid>, schedule: seq<Pid>, counters: map<Pid, int>, file: string)
    requires forall i :: 0 <= i < |schedule| ==> schedule[i] in procs
  {
    counters.Keys == procs && WellKept(file) && (forall p :: p in procs ==> FitsI64(counters[p])) ==>
      var t := ZigRun(counters, FreshDisk(procs, file), schedule);
      forall p, q :: p in procs && q in procs && p != q
        && p in t.stages && q in t.stages && t.stages[p] == Done(true) && t.stages[q] == Done(true)
        ==> counters[p] != counters[q]
  }

  lemma {:induction false} ApartIsSafeWith(procs: set<Pid>, schedule: seq<Pid>, counters: map<Pid, int>, file: string)
    requires Completes(procs, schedule) && Apart(schedule)
    ensures SafeWith(procs, schedule, counters, file)
  {
    hide StoredZig;
    hide ZigStep;
    if counters.Keys == procs && WellKept(file) && forall p :: p in procs ==> FitsI64(counters[p]) {
      var d := FreshDisk(procs, file);
      ApartWindows(counters, d, schedule, 0);
      AfterAll(counters, d, schedule);
      assert schedule[0..] == schedule;
      ApartIsSafe(counters, d, schedule);
    }
  }

  /**
   For every set of processes and every schedule that lets them finish: no two calls that return 1
   share a counter, whatever the counters and whatever well-kept file they start from, if and only
   if no process takes its first step while another is between its first and its third.
   */
  lemma {:induction false} SafeIffApart(procs: set<Pid>, schedule: seq<Pid>)
    requires Completes(procs, schedule)
    ensures (forall counters, file :: SafeWith(procs, schedule, counters, file)) <==> Apart(schedule)
  {
    if Apart(schedule) {
      forall counters, file ensures SafeWith(procs, schedule, counters, file) {
        ApartIsSafeWith(procs, schedule, counters, file);
      }
    } else {
      var n, q :| 0 <= n < |schedule| && OverlapAt(schedule, n, q);
      OverlapIsUnsafe(procs, schedule, n, q);
    }
  }

  lemma {:induction false} OverlapIsUnsafe(procs: set<Pid>, schedule: seq<Pid>, n: nat, q: Pid)
    requires Completes(procs, schedule) && n < |schedule| && OverlapAt(schedule, n, q)
    ensures !SafeWith(procs, schedule, Rivals(procs, schedule[n], q, 0), "")
  {
    CountedIsScheduled(schedule, q, n);
    StoredEmpty();
    hide StoredZig;
    hide ZigStep;
    OverlapAcceptsTwice(procs, schedule, n, q, 0, "");
  }

  lemma {:induction false} CountedIsScheduled(schedule: seq<Pid>, q: Pid, n: nat)
    requires n <= |schedule| && Count(schedule, q, n) > 0
    ensures q in schedule
  {
    if schedule[n - 1] != q {
      CountedIsScheduled(schedule, q, n - 1);
    }
  }
}
