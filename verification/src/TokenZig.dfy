/** The Zig validator's token parser and checks. */
module TokenZig {
  import opened Common
  import opened Numerals
  import opened Token

  // ------------------------------------------------------------ reading lines

  /** `std.mem.trimRight(u8, line, "\r\n")` */
  function TrimLine(s: string): string {
    if s != [] && (s[|s| - 1] == '\r' || s[|s| - 1] == '\n') then TrimLine(s[..|s| - 1]) else s
  }

  /**
   The trimmed lines `readUntilDelimiterOrEof` yields with a buffer of `limit` bytes; `None` when a
   line does not fit, which ends the validation.
   */
  function Lines(s: string, limit: nat): Option<seq<string>>
    decreases |s|
  {
    if s == [] then Some([]) else
    var i := FirstIndex(s, '\n');
    if i >= limit then None
    else if i == |s| then Some([TrimLine(s)])
    else
      var rest := Lines(s[i + 1..], limit);
      if rest.None? then None else Some([TrimLine(s[..i])] + rest.value)
  }

  // ------------------------------------------------------------ field parsers

  function ParseI64(line: string, name: FieldName): Option<int> {
    match After(line, name)
    case None => None
    case Some(v) => ZigParseInt(v)
  }

  function ParseBool(line: string, name: FieldName): Option<bool> {
    match After(line, name)
    case None => None
    case Some(v) =>
      if v == "true" || v == "1" then Some(true)
      else if v == "false" || v == "0" then Some(false)
      else None
  }

  function ParseText(line: string, name: FieldName): Option<string> {
    match After(line, name)
    case None => None
    case Some(v) => if v == [] then None else Some(v)
  }

  function Ring(line: string): Option<int> { ParseI64(line, RingField) }
  function Attested(line: string): Option<bool> { ParseBool(line, AttestedField) }
  function Timestamp(line: string): Option<int> { ParseI64(line, TimestampField) }
  function Nonce(line: string): Option<string> { ParseText(line, NonceField) }
  function Counter(line: string): Option<int> { ParseI64(line, CounterField) }
  function RootAttested(line: string): Option<bool> { ParseBool(line, RootField) }

  const PARSERS: Parsers := Parsers(Ring, Attested, Timestamp, Nonce, Counter, RootAttested)

  /** Six independent searches, one per field. */
  function FieldsOf(lines: seq<string>): Fields { Search(PARSERS, lines) }

  lemma ParsersKeepToFields()
    ensures KeepToFields(PARSERS)
  {
    hide Belongs;
    hide ZigParseInt;
  }

  /** The fields, unless the first nonce does not fit its 256 bytes. */
  function Accepted(lines: seq<string>): Option<Fields> {
    var f := FieldsOf(lines);
    if f.nonce.Some? && |f.nonce.value| > 256 then None else Some(f)
  }

  /** The loop body; `ok` is false when it returns from the whole function. */
  method TakeLine(f: Fields, line: string) returns (ok: bool, r: Fields)
    ensures ok <==> !(f.nonce.None? && Nonce(line).Some? && |Nonce(line).value| > 256)
    ensures ok ==> r == Absorb(PARSERS, f, line)
  {
    hide Ring;
    hide Attested;
    hide Timestamp;
    hide Nonce;
    hide Counter;
    hide RootAttested;
    ParsersKeepToFields();
    OneField(PARSERS, line);
    hide KeepToFields;
    ok, r := true, f;
    if f.ring.None? && Ring(line).Some? {
      return true, f.(ring := Ring(line));
    }
    if f.attested.None? && Attested(line).Some? {
      return true, f.(attested := Attested(line));
    }
    if f.timestamp.None? && Timestamp(line).Some? {
      return true, f.(timestamp := Timestamp(line));
    }
    if f.nonce.None? && Nonce(line).Some? {
      if |Nonce(line).value| > 256 {
        return false, f;
      }
      return true, f.(nonce := Nonce(line));
    }
    if f.counter.None? && Counter(line).Some? {
      return true, f.(counter := Counter(line));
    }
    if f.rootAttested.None? && RootAttested(line).Some? {
      return true, f.(rootAttested := RootAttested(line));
    }
  }

  lemma {:induction false} NonceIsKept(lines: seq<string>, more: seq<string>)
    requires FirstSome(lines, Nonce).Some?
    ensures FirstSome(lines + more, Nonce) == FirstSome(lines, Nonce)
  {
    hide Nonce;
    assert (lines + more)[1..] == lines[1..] + more;
    if Nonce(lines[0]).None? {
      NonceIsKept(lines[1..], more);
    }
  }

  /** The fields of a token file, `None` when a line or the first nonce does not fit its buffer. */
  function ReadFields(content: string): Option<Fields> {
    match Lines(content, 512)
    case None => None
    case Some(lines) => Accepted(lines)
  }

  /** What `readUntilDelimiterOrEof` leaves unread. */
  function Unread(s: string): string {
    var i := FirstIndex(s, '\n');
    if i == |s| then [] else s[i + 1..]
  }

  lemma LinesStep(s: string)
    requires s != []
    ensures var i := FirstIndex(s, '\n');
      Lines(s, 512) ==
      if i >= 512 || Lines(Unread(s), 512).None? then None
      else Some([TrimLine(s[..i])] + Lines(Unread(s), 512).value)
  {
    hide TrimLine;
    var i := FirstIndex(s, '\n');
    if i == |s| {
      assert s[..i] == s && Lines([], 512) == Some([]) && [TrimLine(s)] + [] == [TrimLine(s)];
    }
  }

  /** The loop of `parseToken`, one buffered line at a time, computes the six searches. */
  method ReadToken(content: string) returns (r: Option<Fields>)
    ensures r == ReadFields(content)
  {
    hide Search;
    hide TrimLine;
    hide ParseI64;
    hide ParseBool;
    hide ParseText;
    NothingFound(PARSERS);
    NoLines();
    hide Lines;
    var f, rest := NO_FIELDS, content;
    ghost var done: seq<string> := [];
    while rest != []
      invariant Lines(content, 512).Some? == Lines(rest, 512).Some?
      invariant Lines(rest, 512).Some? ==> Lines(content, 512).value == done + Lines(rest, 512).value
      invariant f == FieldsOf(done)
      invariant f.nonce.Some? ==> |f.nonce.value| <= 256
      decreases |rest|
    {
      LinesStep(rest);
      var i := FirstIndex(rest, '\n');
      if i >= 512 {
        return None;
      }
      var line := TrimLine(rest[..i]);
      SearchSnoc(PARSERS, done, line);
      ghost var later := Lines(Unread(rest), 512);
      assert later.Some? ==> done + ([line] + later.value) == done + [line] + later.value;
      var ok, g := TakeLine(f, line);
      if !ok {
        TooLong(done + [line], Lines(content, 512));
        return None;
      }
      f, done := g, done + [line];
      rest := Unread(rest);
    }
    assert done + [] == done;
    return Some(f);
  }

  /** A nonce that does not fit rejects the token whatever follows. */
  lemma {:induction false} TooLong(done: seq<string>, lines: Option<seq<string>>)
    requires FieldsOf(done).nonce.Some? && |FieldsOf(done).nonce.value| > 256
    requires lines.Some? ==> done <= lines.value
    ensures lines.Some? ==> Accepted(lines.value) == None
  {
    NonceOf(done);
    if lines.Some? {
      NonceOf(lines.value);
      NonceIsKept(done, lines.value[|done|..]);
      assert done + lines.value[|done|..] == lines.value;
    }
  }

  /** When all lines fit the buffer, only the order of the lines of one field among themselves matters. */
  lemma {:induction false} LineOrderDoesNotMatter(a: string, b: string)
    requires Lines(a, 512).Some? && Lines(b, 512).Some? && SameFieldLines(Lines(a, 512).value, Lines(b, 512).value)
    ensures ReadFields(a) == ReadFields(b)
  {
    hide Lines;
    hide Search;
    hide SameFieldLines;
    ParsersKeepToFields();
    Token.LineOrderDoesNotMatter(PARSERS, Lines(a, 512).value, Lines(b, 512).value);
  }

  lemma NonceOf(lines: seq<string>)
    ensures FieldsOf(lines).nonce == FirstSome(lines, Nonce)
  {
  }

  // ------------------------------------------------------------ the checks

  /** Everything `parseToken` checks before it reads the replay state. */
  function Admit(f: Fields, requiredRing: int, maxAge: int, now: int, expectedNonce: Option<string>): Admission {
    if f.ring.None? || f.attested.None? || f.timestamp.None? || f.counter.None? then Reject
    else if !f.attested.value then Reject
    else if f.ring.value != requiredRing then Reject
    else if requiredRing == -2 && (f.rootAttested.None? || !f.rootAttested.value) then Reject
    else if maxAge <= 0 then Reject
    else
      var age := CheckAge(f.timestamp.value, now, maxAge, f.counter.value);
      if !age.Proceed? then age
      else if expectedNonce.Some? && (f.nonce.None? || f.nonce.value != expectedNonce.value) then Reject
      else age
  }

  /** The whole token check: a line or a nonce that does not fit rejects the token. */
  function AdmitToken(content: string, requiredRing: int, maxAge: int, now: int, expectedNonce: Option<string>): Admission {
    match ReadFields(content)
    case None => Reject
    case Some(f) => Admit(f, requiredRing, maxAge, now, expectedNonce)
  }

  // ------------------------------------------------------------ the printed form parses back

  lemma {:induction false} LinesOfLine(line: string, rest: string, limit: nat)
    requires Plain(line) && |line| < limit && Lines(rest, limit).Some?
    ensures Lines(line + "\n" + rest, limit) == Some([line] + Lines(rest, limit).value)
  {
    var s := line + "\n" + rest;
    FirstIndexOf(line, '\n', rest);
    assert s[..|line|] == line && s[|line| + 1..] == rest;
    assert TrimLine(line) == line;
  }

  lemma {:induction false} PrintedNumber(name: FieldName, n: int)
    requires FitsI64(n)
    ensures ParseI64(Prefix(name) + Dec(n), name) == Some(n)
  {
    hide ZigParseInt;
    FieldLine(name, Dec(n));
    ZigParseIntDec(n);
  }

  lemma PrintedFlag(name: FieldName, text: string)
    requires IsFlag(text)
    ensures ParseBool(Prefix(name) + text, name) == Some(FlagValue(text))
  {
    FieldLine(name, text);
  }

  /** One more printed line in front of text whose lines and fields are known. */
  lemma {:induction false} PrintedLine(name: FieldName, v: string, rest: string)
    requires Plain(v) && |v| <= 400 && Lines(rest, 512).Some?
    ensures Lines(Prefix(name) + v + "\n" + rest, 512) == Some([Prefix(name) + v] + Lines(rest, 512).value)
  {
    hide Lines;
    PrefixPlain(name, v);
    LinesOfLine(Prefix(name) + v, rest, 512);
  }

  /** Printing a token and reading it back gives its fields, for every 64-bit ring and either value of the flags. */
  lemma {:induction false} PrintedTokenParses(ring: int, attested: string, root: Option<string>, ts: int, nonce: string, counter: int)
    requires FitsI64(ring) && FitsI64(ts) && FitsI64(counter) && 1 <= |nonce| <= 249 && Plain(nonce)
    requires IsFlag(attested) && (root.Some? ==> IsFlag(root.value))
    ensures var lines := Lines(FlaggedText(ring, attested, root, ts, nonce, counter), 512);
      && lines.Some?
      && Accepted(lines.value)
         == Some(Fields(Some(ring), Some(FlagValue(attested)), Some(ts), Some(nonce), Some(counter),
                     if root.Some? then Some(FlagValue(root.value)) else None))
  {
    hide Search;
    hide KeepToFields;
    hide Lines;
    hide Dec;
    DecPlain(ring); DecPlain(ts); DecPlain(counter);
    DecLength(ring); DecLength(ts); DecLength(counter);
    hide IsFlag;
    FlagPlain(attested);
    NoLines();
    ParsersKeepToFields();
    NothingFound(PARSERS);
    var t4 := Prefix(CounterField) + Dec(counter) + "\n";
    assert t4 + "" == t4;
    PrintedLine(CounterField, Dec(counter), "");
    PrintedNumber(CounterField, counter);
    FieldFirst(PARSERS, CounterField, Dec(counter), []);
    var t3 := Prefix(NonceField) + nonce + "\n" + t4;
    PrintedLine(NonceField, nonce, t4);
    FieldLine(NonceField, nonce);
    FieldFirst(PARSERS, NonceField, nonce, Lines(t4, 512).value);
    var t2 := Prefix(TimestampField) + Dec(ts) + "\n" + t3;
    PrintedLine(TimestampField, Dec(ts), t3);
    PrintedNumber(TimestampField, ts);
    FieldFirst(PARSERS, TimestampField, Dec(ts), Lines(t3, 512).value);
    var t1 := (if root.Some? then Prefix(RootField) + root.value + "\n" else "") + t2;
    if root.Some? {
      FlagPlain(root.value);
      assert t1 == Prefix(RootField) + root.value + "\n" + t2;
      PrintedLine(RootField, root.value, t2);
      PrintedFlag(RootField, root.value);
      FieldFirst(PARSERS, RootField, root.value, Lines(t2, 512).value);
    } else {
      assert t1 == t2;
    }
    var t0 := Prefix(AttestedField) + attested + "\n" + t1;
    PrintedLine(AttestedField, attested, t1);
    PrintedFlag(AttestedField, attested);
    FieldFirst(PARSERS, AttestedField, attested, Lines(t1, 512).value);
    PrintedLine(RingField, Dec(ring), t0);
    PrintedNumber(RingField, ring);
    FieldFirst(PARSERS, RingField, Dec(ring), Lines(t0, 512).value);
    assert FlaggedText(ring, attested, root, ts, nonce, counter) == Prefix(RingField) + Dec(ring) + "\n" + t0;
  }

  lemma NoLines()
    ensures Lines("", 512) == Some([])
  {
  }
}
