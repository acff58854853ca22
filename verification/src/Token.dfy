/** Attestation tokens: lines, fields, and the checks both validators make on them. */
module Token {
  import opened Common
  import opened Numerals

  datatype FieldName = RingField | AttestedField | TimestampField | NonceField | CounterField | RootField

  function Prefix(name: FieldName): string {
    match name
    case RingField => "ring:"
    case AttestedField => "attested:"
    case TimestampField => "timestamp:"
    case NonceField => "nonce:"
    case CounterField => "counter:"
    case RootField => "root_attested:"
  }

  datatype Fields = Fields(
    ring: Option<int>, attested: Option<bool>, timestamp: Option<int>,
    nonce: Option<string>, counter: Option<int>, rootAttested: Option<bool>)

  const NO_FIELDS := Fields(None, None, None, None, None, None)

  predicate Belongs(line: string, name: FieldName) { Prefix(name) <= line }

  /** What follows the field's prefix, if the line starts with it. */
  function After(line: string, name: FieldName): (r: Option<string>)
    ensures r.Some? <==> Belongs(line, name)
  {
    if Belongs(line, name) then Some(line[|Prefix(name)|..]) else None
  }

  /** No field prefix is a prefix of another, so a line belongs to at most one field. */
  lemma OnePrefix(line: string, p: FieldName, q: FieldName)
    requires Belongs(line, p) && Belongs(line, q)
    ensures p == q
  {
    assert Prefix(RingField)[0] == 'r' && Prefix(RingField)[1] == 'i';
    assert Prefix(RootField)[0] == 'r' && Prefix(RootField)[1] == 'o';
    assert Prefix(AttestedField)[0] == 'a' && Prefix(TimestampField)[0] == 't';
    assert Prefix(NonceField)[0] == 'n' && Prefix(CounterField)[0] == 'c';
    assert Prefix(p)[0] == line[0] == Prefix(q)[0] && Prefix(p)[1] == line[1] == Prefix(q)[1];
  }

  /** A printed field line belongs to its field only, and yields its text. */
  lemma FieldLine(name: FieldName, v: string)
    ensures After(Prefix(name) + v, name) == Some(v)
    ensures forall q :: q != name ==> !Belongs(Prefix(name) + v, q)
  {
    var line := Prefix(name) + v;
    assert line[|Prefix(name)|..] == v;
    assert Belongs(line, name);
    forall q | Belongs(line, q) ensures q == name { OnePrefix(line, name, q); }
  }

  lemma EmptyLineHasNoField(q: FieldName)
    ensures !Belongs("", q)
  {
  }

  /** Index of the first `c`, or the length. */
  function FirstIndex(s: string, c: char): (i: nat)
    ensures i <= |s| && (i < |s| ==> s[i] == c)
    ensures forall j :: 0 <= j < i ==> s[j] != c
  {
    if s == [] || s[0] == c then 0 else
    var i := FirstIndex(s[1..], c);
    assert forall j :: 1 <= j < i + 1 ==> s[j] == s[1..][j - 1];
    i + 1
  }

  lemma {:induction false} FirstIndexOf(a: string, c: char, rest: string)
    requires c !in a
    ensures FirstIndex(a + [c] + rest, c) == |a|
  {
    var s := a + [c] + rest;
    var i := FirstIndex(s, c);
    assert s[|a|] == c;
    assert forall j :: 0 <= j < |a| ==> s[j] == a[j];
  }

  lemma {:induction false} FirstIndexAbsent(a: string, c: char)
    requires c !in a
    ensures FirstIndex(a, c) == |a|
  {
  }

  // ------------------------------------------------------------ the first matching line

  /** The result of the first line a parser accepts. */
  function FirstSome<T>(lines: seq<string>, parse: string -> Option<T>): Option<T> {
    if lines == [] then None
    else if parse(lines[0]).Some? then parse(lines[0])
    else FirstSome(lines[1..], parse)
  }

  function OrElse<T>(a: Option<T>, b: Option<T>): Option<T> { if a.Some? then a else b }

  lemma {:induction false} FirstSomeSnoc<T>(lines: seq<string>, line: string, parse: string -> Option<T>)
    ensures FirstSome(lines + [line], parse) == OrElse(FirstSome(lines, parse), parse(line))
  {
    if lines == [] {
      assert lines + [line] == [line];
    } else {
      assert (lines + [line])[1..] == lines[1..] + [line];
      FirstSomeSnoc(lines[1..], line, parse);
    }
  }

  lemma {:induction false} FirstSomeCons<T>(line: string, lines: seq<string>, parse: string -> Option<T>)
    ensures FirstSome([line] + lines, parse) == OrElse(parse(line), FirstSome(lines, parse))
  {
    assert ([line] + lines)[1..] == lines;
  }

  /** The lines of one field, in order. */
  function LinesOf(lines: seq<string>, name: FieldName): seq<string> {
    if lines == [] then []
    else if Belongs(lines[0], name) then [lines[0]] + LinesOf(lines[1..], name)
    else LinesOf(lines[1..], name)
  }

  /** A search that only its own field's lines can answer need not look at any other line. */
  lemma {:induction false} OwnLinesOnly<T>(lines: seq<string>, name: FieldName, parse: string -> Option<T>)
    requires forall line :: parse(line).Some? ==> Belongs(line, name)
    ensures FirstSome(lines, parse) == FirstSome(LinesOf(lines, name), parse)
  {
    hide Belongs;
    if lines != [] {
      OwnLinesOnly(lines[1..], name, parse);
      if Belongs(lines[0], name) {
        FirstSomeCons(lines[0], LinesOf(lines[1..], name), parse);
      }
    }
  }

  /** Both token texts have the same lines for every field, in the same order. */
  ghost predicate SameFieldLines(a: seq<string>, b: seq<string>) {
    forall name :: LinesOf(a, name) == LinesOf(b, name)
  }

  // ------------------------------------------------------------ six searches at once

  /** The field parsers of a validator. */
  datatype Parsers = Parsers(
    ring: string -> Option<int>, attested: string -> Option<bool>, timestamp: string -> Option<int>,
    nonce: string -> Option<string>, counter: string -> Option<int>, rootAttested: string -> Option<bool>)

  /** Each parser accepts only lines of its own field. */
  ghost predicate KeepToFields(ps: Parsers) {
    && (forall line :: ps.ring(line).Some? ==> Belongs(line, RingField))
    && (forall line :: ps.attested(line).Some? ==> Belongs(line, AttestedField))
    && (forall line :: ps.timestamp(line).Some? ==> Belongs(line, TimestampField))
    && (forall line :: ps.nonce(line).Some? ==> Belongs(line, NonceField))
    && (forall line :: ps.counter(line).Some? ==> Belongs(line, CounterField))
    && (forall line :: ps.rootAttested(line).Some? ==> Belongs(line, RootField))
  }

  /** Six independent searches, one per field. */
  function Search(ps: Parsers, lines: seq<string>): Fields {
    Fields(FirstSome(lines, ps.ring), FirstSome(lines, ps.attested), FirstSome(lines, ps.timestamp),
           FirstSome(lines, ps.nonce), FirstSome(lines, ps.counter), FirstSome(lines, ps.rootAttested))
  }

  /** The fields after one more line. */
  function Absorb(ps: Parsers, f: Fields, line: string): Fields {
    Fields(
      OrElse(f.ring, ps.ring(line)), OrElse(f.attested, ps.attested(line)), OrElse(f.timestamp, ps.timestamp(line)),
      OrElse(f.nonce, ps.nonce(line)), OrElse(f.counter, ps.counter(line)), OrElse(f.rootAttested, ps.rootAttested(line)))
  }

  /** A line is accepted by at most one of the six parsers. */
  lemma OneField(ps: Parsers, line: string)
    requires KeepToFields(ps)
    ensures ps.ring(line).Some? ==>
      && ps.attested(line).None? && ps.timestamp(line).None?
      && ps.nonce(line).None? && ps.counter(line).None? && ps.rootAttested(line).None?
    ensures ps.attested(line).Some? ==>
      && ps.timestamp(line).None?
      && ps.nonce(line).None? && ps.counter(line).None? && ps.rootAttested(line).None?
    ensures ps.timestamp(line).Some? ==> ps.nonce(line).None? && ps.counter(line).None? && ps.rootAttested(line).None?
    ensures ps.nonce(line).Some? ==> ps.counter(line).None? && ps.rootAttested(line).None?
    ensures ps.counter(line).Some? ==> ps.rootAttested(line).None?
  {
    hide Belongs;
    forall p, q | Belongs(line, p) && Belongs(line, q) ensures p == q {
      OnePrefix(line, p, q);
    }
  }

  lemma NothingFound(ps: Parsers)
    ensures Search(ps, []) == NO_FIELDS
  {
  }

  lemma {:induction false} SearchSnoc(ps: Parsers, lines: seq<string>, line: string)
    ensures Search(ps, lines + [line]) == Absorb(ps, Search(ps, lines), line)
  {
    hide FirstSome;
    FirstSomeSnoc(lines, line, ps.ring);
    FirstSomeSnoc(lines, line, ps.attested);
    FirstSomeSnoc(lines, line, ps.timestamp);
    FirstSomeSnoc(lines, line, ps.nonce);
    FirstSomeSnoc(lines, line, ps.counter);
    FirstSomeSnoc(lines, line, ps.rootAttested);
  }

  lemma {:induction false} SearchCons(ps: Parsers, line: string, lines: seq<string>)
    ensures var f := Search(ps, lines);
      Search(ps, [line] + lines) == Fields(
        OrElse(ps.ring(line), f.ring), OrElse(ps.attested(line), f.attested), OrElse(ps.timestamp(line), f.timestamp),
        OrElse(ps.nonce(line), f.nonce), OrElse(ps.counter(line), f.counter), OrElse(ps.rootAttested(line), f.rootAttested))
  {
    hide FirstSome;
    FirstSomeCons(line, lines, ps.ring);
    FirstSomeCons(line, lines, ps.attested);
    FirstSomeCons(line, lines, ps.timestamp);
    FirstSomeCons(line, lines, ps.nonce);
    FirstSomeCons(line, lines, ps.counter);
    FirstSomeCons(line, lines, ps.rootAttested);
  }

  /** A line of one field, put first, supplies that field and leaves the others alone. */
  lemma {:induction false} FieldFirst(ps: Parsers, name: FieldName, v: string, lines: seq<string>)
    requires KeepToFields(ps)
    ensures var f, g, line := Search(ps, lines), Search(ps, [Prefix(name) + v] + lines), Prefix(name) + v;
      && (name.RingField? ==> g == f.(ring := OrElse(ps.ring(line), f.ring)))
      && (name.AttestedField? ==> g == f.(attested := OrElse(ps.attested(line), f.attested)))
      && (name.TimestampField? ==> g == f.(timestamp := OrElse(ps.timestamp(line), f.timestamp)))
      && (name.NonceField? ==> g == f.(nonce := OrElse(ps.nonce(line), f.nonce)))
      && (name.CounterField? ==> g == f.(counter := OrElse(ps.counter(line), f.counter)))
      && (name.RootField? ==> g == f.(rootAttested := OrElse(ps.rootAttested(line), f.rootAttested)))
  {
    hide Search;
    hide Belongs;
    FieldLine(name, v);
    SearchCons(ps, Prefix(name) + v, lines);
  }

  /** An empty line, put first, changes nothing. */
  lemma {:induction false} EmptyFirst(ps: Parsers, lines: seq<string>)
    requires KeepToFields(ps)
    ensures Search(ps, [""] + lines) == Search(ps, lines)
  {
    hide Search;
    hide Belongs;
    forall q ensures !Belongs("", q) { EmptyLineHasNoField(q); }
    SearchCons(ps, "", lines);
  }

  lemma {:induction false} OwnFields(ps: Parsers, lines: seq<string>)
    requires KeepToFields(ps)
    ensures Search(ps, lines) == Fields(
      FirstSome(LinesOf(lines, RingField), ps.ring), FirstSome(LinesOf(lines, AttestedField), ps.attested),
      FirstSome(LinesOf(lines, TimestampField), ps.timestamp), FirstSome(LinesOf(lines, NonceField), ps.nonce),
      FirstSome(LinesOf(lines, CounterField), ps.counter), FirstSome(LinesOf(lines, RootField), ps.rootAttested))
  {
    hide FirstSome;
    hide Belongs;
    hide LinesOf;
    OwnLinesOnly(lines, RingField, ps.ring);
    OwnLinesOnly(lines, AttestedField, ps.attested);
    OwnLinesOnly(lines, TimestampField, ps.timestamp);
    OwnLinesOnly(lines, NonceField, ps.nonce);
    OwnLinesOnly(lines, CounterField, ps.counter);
    OwnLinesOnly(lines, RootField, ps.rootAttested);
  }

  /** Only the order of the lines of one field among themselves matters. */
  lemma {:induction false} LineOrderDoesNotMatter(ps: Parsers, a: seq<string>, b: seq<string>)
    requires KeepToFields(ps) && SameFieldLines(a, b)
    ensures Search(ps, a) == Search(ps, b)
  {
    hide Search;
    hide FirstSome;
    hide LinesOf;
    hide KeepToFields;
    OwnFields(ps, a);
    OwnFields(ps, b);
  }

  // ------------------------------------------------------------ the checks

  /** What a validator concludes before it looks at the replay counter. */
  datatype Admission = Reject | Undefined | Proceed(counter: int)

  /**
   Age check on 64-bit integers: a future timestamp is rejected, an age that does not fit in 64
   bits is an overflow, which neither language defines.
   */
  function CheckAge(ts: int, now: int, maxAge: int, counter: int): Admission {
    if ts > now then Reject
    else if !FitsI64(now - ts) then Undefined
    else if now - ts > maxAge then Reject
    else Proceed(counter)
  }

  /** A token whose age is checked against a non-negative timestamp never overflows. */
  lemma AgeIsDefined(ts: int, now: int, maxAge: int, counter: int)
    requires FitsI64(ts) && FitsI64(now)
    ensures CheckAge(ts, now, maxAge, counter).Undefined? <==> ts <= now && now - ts > LLONG_MAX
    ensures ts >= 0 ==> !CheckAge(ts, now, maxAge, counter).Undefined?
  {
  }

  // ------------------------------------------------------------ the printed form

  /** A token in the line format `token-template` prints, with the flags spelled as given. */
  function FlaggedText(ring: int, attested: string, root: Option<string>, ts: int, nonce: string, counter: int): string {
    "ring:" + Dec(ring) + "\n"
    + ("attested:" + attested + "\n"
    + ((if root.Some? then "root_attested:" + root.value + "\n" else "")
    + ("timestamp:" + Dec(ts) + "\n"
    + ("nonce:" + nonce + "\n"
    + ("counter:" + Dec(counter) + "\n")))))
  }

  /** The template itself prints only true flags. */
  function TokenText(ring: int, root: bool, ts: int, nonce: string, counter: int): string {
    FlaggedText(ring, "true", if root then Some("true") else None, ts, nonce, counter)
  }

  /** The spellings of a flag, and what they mean. */
  predicate IsFlag(text: string) { text == "true" || text == "1" || text == "false" || text == "0" }

  predicate FlagValue(text: string) { text == "true" || text == "1" }

  lemma FlagPlain(text: string)
    requires IsFlag(text)
    ensures Plain(text) && |text| <= 5
  {
  }

  predicate Plain(s: string) { '\n' !in s && '\r' !in s && '\0' !in s }

  lemma PrefixPlain(name: FieldName, v: string)
    ensures Plain(v) ==> Plain(Prefix(name) + v)
    ensures |Prefix(name)| <= 14 && (name.NonceField? ==> |Prefix(name)| == 6)
  {
  }

  lemma {:induction false} DecPlain(n: int)
    ensures Plain(Dec(n))
  {
    assert !IsDigit('\n') && !IsDigit('\r') && !IsDigit('\0');
    var s := DecNat(if n < 0 then -n else n);
    assert forall i :: 0 <= i < |s| ==> IsDigit(s[i]);
  }
}
