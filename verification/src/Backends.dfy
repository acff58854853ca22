/** The C and the Zig validator side by side. */
module Backends {
  import opened Common
  import opened Numerals
  import opened Token
  import C = TokenC
  import Zig = TokenZig
  import opened Replay

  /** What one validation does: accept and store a counter, deny, or run into undefined arithmetic. */
  datatype Decision = Accept(stored: string) | Deny | Overflowed

  function Settle(a: Admission, last: int): Decision {
    match a
    case Reject => Deny
    case Undefined => Overflowed
    case Proceed(c) => if c <= last then Deny else Accept(Canonical(c))
  }

  /** The C validator run alone on a token file and a state file. */
  function ValidateC(token: string, state: string, ring: int, maxAge: int, now: int, nonce: Option<string>): Decision {
    Settle(C.Admit(C.FieldsOf(C.Lines(token)), ring, maxAge, now, nonce), StoredC(state))
  }

  /** The Zig validator run alone; a missing state file reads as an empty one. */
  function ValidateZig(token: string, state: string, ring: int, maxAge: int, now: int, nonce: Option<string>): Decision {
    var a := Zig.AdmitToken(token, ring, maxAge, now, nonce);
    if !a.Proceed? then Settle(a, -1) else
    match StoredZig(state)
    case None => Deny
    case Some(last) => Settle(a, last)
  }

  lemma SameChecks(f: Fields, ring: int, maxAge: int, now: int, nonce: Option<string>)
    requires now != -1
    ensures C.Admit(f, ring, maxAge, now, nonce) == Zig.Admit(f, ring, maxAge, now, nonce)
  {
  }

  /**
   On every token in the printed format whose ring fits in an `int`, whatever its flags, with the
   same clock and a state file only validators have written, the two validators decide alike and
   store the same text.
   */
  lemma {:induction false} BackendsAgree(ring: int, attested: string, root: Option<string>, ts: int, tokenNonce: string, counter: int,
                                         state: string, required: int, maxAge: int, now: int, nonce: Option<string>)
    requires FitsI32(ring) && FitsI64(ts) && FitsI64(counter) && 1 <= |tokenNonce| <= 249 && Plain(tokenNonce)
    requires IsFlag(attested) && (root.Some? ==> IsFlag(root.value))
    requires WellKept(state) && now != -1
    ensures var token := FlaggedText(ring, attested, root, ts, tokenNonce, counter);
      ValidateC(token, state, required, maxAge, now, nonce) == ValidateZig(token, state, required, maxAge, now, nonce)
  {
    hide FlaggedText;
    hide IsFlag;
    hide C.Lines;
    hide C.FieldsOf;
    hide Zig.Lines;
    hide Zig.Accepted;
    hide C.Admit;
    hide Zig.Admit;
    hide StoredC;
    hide StoredZig;
    C.PrintedTokenParses(ring, attested, root, ts, tokenNonce, counter);
    Zig.PrintedTokenParses(ring, attested, root, ts, tokenNonce, counter);
    SameChecks(C.PrintedFields(ring, attested, root, ts, tokenNonce, counter), required, maxAge, now, nonce);
    BothReadTheSame(state);
  }

  /**
   Every wider ring is where they part: C keeps its low 32 bits, so it accepts a fresh token that
   Zig rejects.
   */
  lemma {:induction false} BackendsPartOnWideRings(ring: int, ts: int, tokenNonce: string, counter: nat, maxAge: int, now: int)
    requires FitsI64(ring) && !FitsI32(ring)
    requires FitsI64(ts) && FitsI64(counter) && 1 <= |tokenNonce| <= 249 && Plain(tokenNonce)
    requires 0 <= ts <= now && FitsI64(now) && now - ts <= maxAge && maxAge > 0
    ensures var token := TokenText(ring, true, ts, tokenNonce, counter);
      && ValidateC(token, "", C.ToInt(ring), maxAge, now, Some(tokenNonce)) == Accept(Canonical(counter))
      && ValidateZig(token, "", C.ToInt(ring), maxAge, now, Some(tokenNonce)) == Deny
  {
    hide FlaggedText;
    hide C.Lines;
    hide C.FieldsOf;
    hide Zig.Lines;
    hide Zig.Accepted;
    hide StoredC;
    hide StoredZig;
    hide Canonical;
    C.PrintedTokenParses(ring, "true", Some("true"), ts, tokenNonce, counter);
    Zig.PrintedTokenParses(ring, "true", Some("true"), ts, tokenNonce, counter);
    StoredEmpty();
    hide C.ToInt;
  }

  // ------------------------------------------------------------ flags in arbitrary files

  /** In C a flag is a prefix of what follows the field name: the line states it, or denies it. */
  predicate StatesC(line: string, field: string) { field + "true" <= line || field + "1" <= line }

  predicate DeniesC(line: string, field: string) { field + "false" <= line || field + "0" <= line }

  /** In Zig it is all that follows. */
  predicate StatesZig(line: string, field: string) { line == field + "true" || line == field + "1" }

  predicate DeniesZig(line: string, field: string) { line == field + "false" || line == field + "0" }

  /** Line `i` is the first that carries the flag. */
  predicate FirstFlagC(lines: seq<string>, field: string, i: nat) {
    && i < |lines| && (StatesC(lines[i], field) || DeniesC(lines[i], field))
    && forall j :: 0 <= j < i ==> !StatesC(lines[j], field) && !DeniesC(lines[j], field)
  }

  predicate FirstFlagZig(lines: seq<string>, field: string, i: nat) {
    && i < |lines| && (StatesZig(lines[i], field) || DeniesZig(lines[i], field))
    && forall j :: 0 <= j < i ==> !StatesZig(lines[j], field) && !DeniesZig(lines[j], field)
  }

  /** A search that rejects the lines before `i` and accepts line `i` finds what line `i` says. */
  lemma {:induction false} FirstSomeAt<T>(lines: seq<string>, parse: string -> Option<T>, i: nat)
    requires i < |lines| && parse(lines[i]).Some? && forall j :: 0 <= j < i ==> parse(lines[j]).None?
    ensures FirstSome(lines, parse) == parse(lines[i])
  {
    if i > 0 {
      assert lines[1..][i - 1] == lines[i];
      assert forall j :: 0 <= j < i - 1 ==> lines[1..][j] == lines[j + 1];
      FirstSomeAt(lines[1..], parse, i - 1);
    }
  }

  lemma {:induction false} FirstSomeFound<T>(lines: seq<string>, parse: string -> Option<T>) returns (i: nat)
    requires FirstSome(lines, parse).Some?
    ensures i < |lines| && parse(lines[i]) == FirstSome(lines, parse) && forall j :: 0 <= j < i ==> parse(lines[j]).None?
  {
    i := 0;
    if parse(lines[0]).None? {
      var k := FirstSomeFound(lines[1..], parse);
      i := k + 1;
      assert forall j :: 1 <= j < i ==> lines[j] == lines[1..][j - 1];
    }
  }

  /** Cutting a prefix off both sides of a prefix relation. */
  lemma CutPrefix(p: string, a: string, line: string)
    ensures p + a <= line <==> p <= line && a <= line[|p|..]
    ensures p + a == line <==> p <= line && a == line[|p|..]
  {
    if p + a <= line {
      assert line[..|p| + |a|] == p + a;
      assert line[..|p|] == p && line[|p|..][..|a|] == a;
    }
    if p <= line && a <= line[|p|..] {
      assert line[..|p|] == p && line[|p|..|p| + |a|] == a;
      assert line[..|p| + |a|] == line[..|p|] + line[|p|..|p| + |a|];
    }
  }

  lemma FlagOfC(line: string, name: FieldName, field: string)
    requires field == Prefix(name)
    ensures C.ParseFlag(line, name) ==
      if StatesC(line, field) then Some(true) else if DeniesC(line, field) then Some(false) else None
  {
    CutPrefix(field, "true", line);
    CutPrefix(field, "1", line);
    CutPrefix(field, "false", line);
    CutPrefix(field, "0", line);
  }

  lemma FlagOfZig(line: string, name: FieldName, field: string)
    requires field == Prefix(name)
    ensures Zig.ParseBool(line, name) ==
      if StatesZig(line, field) then Some(true) else if DeniesZig(line, field) then Some(false) else None
  {
    CutPrefix(field, "true", line);
    CutPrefix(field, "1", line);
    CutPrefix(field, "false", line);
    CutPrefix(field, "0", line);
  }

  lemma StatesExcludesDenies(line: string, field: string)
    ensures !(StatesC(line, field) && DeniesC(line, field)) && !(StatesZig(line, field) && DeniesZig(line, field))
  {
    CutPrefix(field, "true", line);
    CutPrefix(field, "1", line);
    CutPrefix(field, "false", line);
    CutPrefix(field, "0", line);
    assert "true"[0] == 't' && "false"[0] == 'f' && "1"[0] == '1' && "0"[0] == '0';
  }

  /** What the search for a flag finds, in both directions. */
  lemma {:induction false} FlagFoundC(lines: seq<string>, name: FieldName, field: string, parse: string -> Option<bool>)
    requires field == Prefix(name) && forall line :: parse(line) == C.ParseFlag(line, name)
    ensures forall b :: FirstSome(lines, parse) == Some(b) <==>
      exists i: nat :: FirstFlagC(lines, field, i) && (b <==> StatesC(lines[i], field))
  {
    hide StatesC;
    hide DeniesC;
    hide C.ParseFlag;
    hide FirstSome;
    forall line ensures parse(line) ==
      if StatesC(line, field) then Some(true) else if DeniesC(line, field) then Some(false) else None
    {
      FlagOfC(line, name, field);
    }
    forall i: nat | FirstFlagC(lines, field, i) ensures FirstSome(lines, parse) == Some(StatesC(lines[i], field)) {
      StatesExcludesDenies(lines[i], field);
      FirstSomeAt(lines, parse, i);
    }
    if FirstSome(lines, parse).Some? {
      var i := FirstSomeFound(lines, parse);
      assert FirstFlagC(lines, field, i);
    }
  }

  lemma {:induction false} FlagFoundZig(lines: seq<string>, name: FieldName, field: string, parse: string -> Option<bool>)
    requires field == Prefix(name) && forall line :: parse(line) == Zig.ParseBool(line, name)
    ensures forall b :: FirstSome(lines, parse) == Some(b) <==>
      exists i: nat :: FirstFlagZig(lines, field, i) && (b <==> StatesZig(lines[i], field))
  {
    hide StatesZig;
    hide DeniesZig;
    hide Zig.ParseBool;
    hide FirstSome;
    forall line ensures parse(line) ==
      if StatesZig(line, field) then Some(true) else if DeniesZig(line, field) then Some(false) else None
    {
      FlagOfZig(line, name, field);
    }
    forall i: nat | FirstFlagZig(lines, field, i) ensures FirstSome(lines, parse) == Some(StatesZig(lines[i], field)) {
      StatesExcludesDenies(lines[i], field);
      FirstSomeAt(lines, parse, i);
    }
    if FirstSome(lines, parse).Some? {
      var i := FirstSomeFound(lines, parse);
      assert FirstFlagZig(lines, field, i);
    }
  }

  /** The first line of a file that carries the flag states it. */
  ghost predicate SaysSoC(lines: seq<string>, field: string) {
    exists i: nat :: FirstFlagC(lines, field, i) && StatesC(lines[i], field)
  }

  ghost predicate SaysSoZig(lines: seq<string>, field: string) {
    exists i: nat :: FirstFlagZig(lines, field, i) && StatesZig(lines[i], field)
  }

  lemma {:induction false} FlagsOfC(token: string)
    ensures var lines, f := C.Lines(token), C.FieldsOf(C.Lines(token));
      && (f.attested == Some(true) <==> SaysSoC(lines, "attested:"))
      && (f.rootAttested == Some(true) <==> SaysSoC(lines, "root_attested:"))
  {
    hide C.Lines;
    hide C.ParseFlag;
    hide FirstFlagC;
    FlagFoundC(C.Lines(token), AttestedField, "attested:", C.Attested);
    FlagFoundC(C.Lines(token), RootField, "root_attested:", C.RootAttested);
    hide StatesC;
  }

  lemma {:induction false} FlagsOfZig(lines: seq<string>)
    ensures var f := Zig.FieldsOf(lines);
      && (f.attested == Some(true) <==> SaysSoZig(lines, "attested:"))
      && (f.rootAttested == Some(true) <==> SaysSoZig(lines, "root_attested:"))
  {
    hide Zig.ParseBool;
    hide FirstFlagZig;
    FlagFoundZig(lines, AttestedField, "attested:", Zig.Attested);
    FlagFoundZig(lines, RootField, "root_attested:", Zig.RootAttested);
    hide StatesZig;
  }

  /**
   Whatever else a token file holds, C denies it unless the first line that carries the attested flag
   states it, and on ring -2 also the first line that carries the root flag.
   */
  lemma {:induction false} UnstatedIsDeniedC(token: string, state: string, ring: int, maxAge: int, now: int, nonce: Option<string>)
    ensures var lines := C.Lines(token);
      (!SaysSoC(lines, "attested:") || (ring == -2 && !SaysSoC(lines, "root_attested:"))) ==>
      ValidateC(token, state, ring, maxAge, now, nonce) == Deny
  {
    hide C.Lines;
    hide C.FieldsOf;
    hide SaysSoC;
    FlagsOfC(token);
  }

  /** The same for Zig, which also denies a file with a line or a nonce that does not fit. */
  lemma {:induction false} UnstatedIsDeniedZig(token: string, state: string, ring: int, maxAge: int, now: int, nonce: Option<string>)
    ensures var lines := Zig.Lines(token, 512);
      (lines.None? || !SaysSoZig(lines.value, "attested:") || (ring == -2 && !SaysSoZig(lines.value, "root_attested:"))) ==>
      ValidateZig(token, state, ring, maxAge, now, nonce) == Deny
  {
    hide Zig.Lines;
    hide Zig.FieldsOf;
    hide SaysSoZig;
    hide StoredZig;
    if Zig.Lines(token, 512).Some? {
      FlagsOfZig(Zig.Lines(token, 512).value);
    }
  }

  /** A lone run of the protocol is `ValidateC`'s replay step. */
  lemma {:induction false} LoneRunIsAtomic(file: string, c: int, p: Pid)
    requires WellKept(file) && FitsI64(c)
    ensures var w := World(file, None, map[p := Idle], [], []);
      var t := Interleave(map[p := c], w, Times(p, 6));
      match Settle(Proceed(c), StoredC(file))
      case Accept(text) => t.phases == map[p := Returned(true)] && t.file == text
      case Deny => t.phases == map[p := Returned(false)] && t.file == file
      case Overflowed => false
  {
    hide StoredC;
    hide Canonical;
    hide Interleave;
    var counters := map[p := c];
    var w := World(file, None, map[p := Idle], [], []);
    var w3 := World(file, Some(p), map[p := HasRead(StoredC(file))], [p], []);
    LoneStart(file, c, p);
    OneMore(counters, w, p, 5);
    OneMore(counters, StepOf(counters, w, p), p, 4);
    OneMore(counters, StepOf(counters, StepOf(counters, w, p), p), p, 3);
    LoneEnd(file, c, p);
  }

  lemma {:induction false} LoneEnd(file: string, c: int, p: Pid)
    ensures var last := StoredC(file);
      var t := Interleave(map[p := c], World(file, Some(p), map[p := HasRead(last)], [p], []), Times(p, 3));
      if c <= last then t.phases == map[p := Returned(false)] && t.file == file
      else t.phases == map[p := Returned(true)] && t.file == Canonical(c)
  {
    hide StoredC;
    hide Canonical;
    hide Interleave;
    var counters := map[p := c];
    var w3 := World(file, Some(p), map[p := HasRead(StoredC(file))], [p], []);
    var w4 := StepOf(counters, w3, p);
    var w5 := StepOf(counters, w4, p);
    OneMore(counters, w3, p, 2);
    OneMore(counters, w4, p, 1);
    OneMore(counters, w5, p, 0);
    if c <= StoredC(file) {
      assert w4 == World(file, None, map[p := Returned(false)], [p], []);
    } else {
      assert w4 == World("", Some(p), map[p := Truncated], [p], []);
      assert w5 == World(Canonical(c), Some(p), map[p := Written], [p], [p]);
    }
  }

  function Times(p: Pid, n: nat): seq<Pid> { seq(n, _ => p) }

  lemma LoneStart(file: string, c: int, p: Pid)
    ensures var w := World(file, None, map[p := Idle], [], []);
      var w1 := StepOf(map[p := c], w, p);
      && p in w1.phases
      && var w2 := StepOf(map[p := c], w1, p);
         && p in w2.phases
         && StepOf(map[p := c], w2, p) == World(file, Some(p), map[p := HasRead(StoredC(file))], [p], [])
  {
    hide StoredC;
    var w1 := StepOf(map[p := c], World(file, None, map[p := Idle], [], []), p);
    assert w1 == World(file, None, map[p := Opened], [], []);
    var w2 := StepOf(map[p := c], w1, p);
    assert w2 == World(file, Some(p), map[p := Locked], [p], []);
  }

  lemma {:induction false} OneMore(counters: map<Pid, int>, w: World, p: Pid, n: nat)
    requires w.phases.Keys == counters.Keys && p in counters
    ensures StepOf(counters, w, p).phases.Keys == counters.Keys
    ensures Interleave(counters, w, Times(p, n + 1)) == Interleave(counters, StepOf(counters, w, p), Times(p, n))
    ensures n == 0 ==> Interleave(counters, w, Times(p, 1)) == StepOf(counters, w, p)
  {
    hide StepOf;
    StepKeys(counters, w, p);
    assert Times(p, n + 1)[1..] == Times(p, n);
  }
}
