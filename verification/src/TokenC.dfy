/** The C validator's token parser and checks. */
module TokenC {
  import opened Common
  import opened Numerals
  import opened Token

  // ------------------------------------------------------------ reading lines

  /** How many bytes `fgets(buf, 256, f)` takes: up to and including a newline, at most 255. */
  function FgetsLength(s: string): (n: nat)
    requires s != []
    ensures 1 <= n <= |s|
  {
    var i := FirstIndex(s, '\n');
    if i < 255 && i < |s| then i + 1 else if |s| < 255 then |s| else 255
  }

  /** The C string left in the buffer once its newline is overwritten. */
  function CString(chunk: string): string {
    var nul, nl := FirstIndex(chunk, '\0'), FirstIndex(chunk, '\n');
    if nul < nl then chunk[..nul] else chunk[..nl]
  }

  /** The C strings the `while (fgets(...))` loop sees. */
  function Lines(s: string): seq<string>
    decreases |s|
  {
    if s == [] then [] else
    var n := FgetsLength(s);
    [CString(s[..n])] + Lines(s[n..])
  }

  // ------------------------------------------------------------ field parsers

  /** Conversion of a 64-bit `long` to `int`. */
  function ToInt(n: int): (r: int)
    ensures FitsI32(r)
    ensures FitsI32(n) ==> r == n
  {
    var low := n % 0x1_0000_0000;
    if low >= 0x8000_0000 then low - 0x1_0000_0000 else low
  }

  function ParseI64(line: string, name: FieldName): Option<int> {
    match After(line, name)
    case None => None
    case Some(v) => StrToLL(v)
  }

  function ParseRing(line: string): Option<int> {
    match ParseI64(line, RingField)
    case None => None
    case Some(v) => Some(ToInt(v))
  }

  function ParseFlag(line: string, name: FieldName): Option<bool> {
    match After(line, name)
    case None => None
    case Some(v) =>
      if "true" <= v || "1" <= v then Some(true)
      else if "false" <= v || "0" <= v then Some(false)
      else None
  }

  function ParseText(line: string, name: FieldName): Option<string> {
    match After(line, name)
    case None => None
    case Some(v) => if v == [] || |v| + 1 > 256 then None else Some(v)
  }

  function Ring(line: string): Option<int> { ParseRing(line) }
  function Attested(line: string): Option<bool> { ParseFlag(line, AttestedField) }
  function Timestamp(line: string): Option<int> { ParseI64(line, TimestampField) }
  function Nonce(line: string): Option<string> { ParseText(line, NonceField) }
  function Counter(line: string): Option<int> { ParseI64(line, CounterField) }
  function RootAttested(line: string): Option<bool> { ParseFlag(line, RootField) }

  const PARSERS: Parsers := Parsers(Ring, Attested, Timestamp, Nonce, Counter, RootAttested)

  /** Six independent searches, one per field. */
  function FieldsOf(lines: seq<string>): Fields { Search(PARSERS, lines) }

  lemma ParsersKeepToFields()
    ensures KeepToFields(PARSERS)
  {
    hide Belongs;
    hide StrToLL;
    hide ToInt;
  }

  /** The flag-driven loop body: the first parser that still wants the line takes it. */
  method TakeLine(f: Fields, line: string) returns (r: Fields)
    ensures r == Absorb(PARSERS, f, line)
  {
    hide Ring;
    hide Attested;
    hide Timestamp;
    hide Nonce;
    hide Counter;
    hide RootAttested;
    ParsersKeepToFields();
    OneField(PARSERS, line);
    hide KeepToFields;
    if f.ring.None? && Ring(line).Some? {
      return f.(ring := Ring(line));
    }
    if f.attested.None? && Attested(line).Some? {
      return f.(attested := Attested(line));
    }
    if f.timestamp.None? && Timestamp(line).Some? {
      return f.(timestamp := Timestamp(line));
    }
    if f.nonce.None? && Nonce(line).Some? {
      return f.(nonce := Nonce(line));
    }
    if f.counter.None? && Counter(line).Some? {
      return f.(counter := Counter(line));
    }
    if f.rootAttested.None? && RootAttested(line).Some? {
      return f.(rootAttested := RootAttested(line));
    }
    return f;
  }

  /**
   The one-pass loop over the file. Whatever the order of the branches, it computes the six
   independent searches.
   */
  method ReadToken(content: string) returns (f: Fields)
    ensures f == FieldsOf(Lines(content))
  {
    hide Search;
    hide Absorb;
    hide CString;
    hide FgetsLength;
    NothingFound(PARSERS);
    var rest := content;
    ghost var done: seq<string> := [];
    f := NO_FIELDS;
    while rest != []
      invariant done + Lines(rest) == Lines(content)
      invariant f == FieldsOf(done)
      decreases |rest|
    {
      var n := FgetsLength(rest);
      var line := CString(rest[..n]);
      SearchSnoc(PARSERS, done, line);
      f := TakeLine(f, line);
      assert done + Lines(rest) == done + [line] + Lines(rest[n..]);
      done := done + [line];
      rest := rest[n..];
    }
    assert done + [] == done;
  }

  /** Only the order of the lines of one field among themselves matters. */
  lemma {:induction false} LineOrderDoesNotMatter(a: string, b: string)
    requires SameFieldLines(Lines(a), Lines(b))
    ensures FieldsOf(Lines(a)) == FieldsOf(Lines(b))
  {
    hide Lines;
    hide Search;
    hide SameFieldLines;
    ParsersKeepToFields();
    Token.LineOrderDoesNotMatter(PARSERS, Lines(a), Lines(b));
  }

  // ------------------------------------------------------------ the checks

  /** Everything `skv_validate_attestation_token` checks before it opens the replay state. */
  function Admit(f: Fields, requiredRing: int, maxAge: int, now: int, expectedNonce: Option<string>): Admission {
    if f.ring.None? || f.attested.None? || f.timestamp.None? || f.counter.None? then Reject
    else if !f.attested.value then Reject
    else if f.ring.value != requiredRing then Reject
    else if requiredRing == -2 && f.rootAttested != Some(true) then Reject
    else if maxAge <= 0 then Reject
    else if now == -1 then Reject
    else
      var age := CheckAge(f.timestamp.value, now, maxAge, f.counter.value);
      if !age.Proceed? then age
      else if expectedNonce.Some? && f.nonce != expectedNonce then Reject
      else age
  }

  /** `expectedNonce` as the C string the caller passes. */
  lemma AdmitMeans(f: Fields, requiredRing: int, maxAge: int, now: int, expectedNonce: Option<string>, c: int)
    ensures Admit(f, requiredRing, maxAge, now, expectedNonce) == Proceed(c) <==>
      && f.counter == Some(c)
      && f.ring == Some(requiredRing)
      && f.attested == Some(true)
      && (requiredRing == -2 ==> f.rootAttested == Some(true))
      && f.timestamp.Some? && f.timestamp.value <= now && now != -1
      && FitsI64(now - f.timestamp.value) && now - f.timestamp.value <= maxAge && maxAge > 0
      && (expectedNonce.Some? ==> f.nonce == expectedNonce)
  {
  }

  // ------------------------------------------------------------ the printed form parses back

  /** A plain line and its newline are read as one line, or as the line and an empty one when it fills the buffer. */
  lemma {:induction false} LinesOfLine(line: string, rest: string)
    requires Plain(line) && |line| <= 255
    ensures Lines(line + "\n" + rest) == (if |line| < 255 then [line] else [line, ""]) + Lines(rest)
  {
    var s := line + "\n" + rest;
    FirstIndexOf(line, '\n', rest);
    assert FirstIndex(s, '\n') == |line|;
    if |line| < 255 {
      var chunk := s[..|line| + 1];
      assert chunk == line + "\n";
      ChunkOfLine(line, "\n");
      assert s[|line| + 1..] == rest;
    } else {
      var chunk := s[..255];
      assert chunk == line;
      assert line == line + "";
      ChunkOfLine(line, "");
      var tail := s[255..];
      assert tail == "\n" + rest;
      EmptyLine(rest);
      assert Lines(s) == [line] + Lines(tail);
      assert [line] + ([""] + Lines(rest)) == [line, ""] + Lines(rest);
    }
  }

  lemma EmptyLine(rest: string)
    ensures Lines("\n" + rest) == [""] + Lines(rest)
  {
    var s := "\n" + rest;
    assert s[0] == '\n' && FirstIndex(s, '\n') == 0;
    assert s[..1] == "\n" && s[1..] == rest;
    assert CString("\n") == "";
  }

  lemma {:induction false} ChunkOfLine(line: string, nl: string)
    requires Plain(line) && (nl == "" || nl == "\n")
    ensures CString(line + nl) == line
  {
    var chunk := line + nl;
    if nl == "\n" {
      FirstIndexOf(line, '\n', "");
      assert chunk == line + ['\n'] + "";
      assert '\0' !in chunk;
    } else {
      assert chunk == line;
      FirstIndexAbsent(line, '\n');
    }
    FirstIndexAbsent(chunk, '\0');
  }

  lemma {:induction false} PrintedNumber(name: FieldName, n: int)
    requires FitsI64(n)
    ensures ParseI64(Prefix(name) + Dec(n), name) == Some(n)
  {
    hide StrToLL;
    FieldLine(name, Dec(n));
    StrToLLDec(n, "");
    assert Dec(n) + "" == Dec(n);
  }

  lemma PrintedFlag(name: FieldName, text: string)
    requires IsFlag(text)
    ensures ParseFlag(Prefix(name) + text, name) == Some(FlagValue(text))
  {
    FieldLine(name, text);
    assert "true"[0] == 't' && "false"[0] == 'f' && "1"[0] == '1' && "0"[0] == '0';
  }

  lemma PrintedText(name: FieldName, v: string)
    requires 1 <= |v| <= 255
    ensures ParseText(Prefix(name) + v, name) == Some(v)
  {
    FieldLine(name, v);
  }

  /** The fields of a printed token, when no line is longer than the buffer. */
  function PrintedFields(ring: int, attested: string, root: Option<string>, ts: int, nonce: string, counter: int): Fields {
    Fields(Some(ToInt(ring)), Some(FlagValue(attested)), Some(ts), Some(nonce), Some(counter),
           if root.Some? then Some(FlagValue(root.value)) else None)
  }

  lemma {:induction false} TailFields(ts: int, nonce: string, counter: int)
    requires FitsI64(ts) && FitsI64(counter) && 1 <= |nonce| <= 249 && Plain(nonce)
    ensures FieldsOf(Lines(Prefix(TimestampField) + Dec(ts) + "\n"
                           + (Prefix(NonceField) + nonce + "\n" + (Prefix(CounterField) + Dec(counter) + "\n"))))
         == Fields(None, None, Some(ts), Some(nonce), Some(counter), None)
  {
    hide Search;
    hide KeepToFields;
    hide Lines;
    hide Dec;
    var c, n, t := Prefix(CounterField) + Dec(counter), Prefix(NonceField) + nonce, Prefix(TimestampField) + Dec(ts);
    PrefixPlain(CounterField, Dec(counter));
    PrefixPlain(NonceField, nonce);
    PrefixPlain(TimestampField, Dec(ts));
    DecPlain(counter);
    DecPlain(ts);
    DecLength(counter);
    DecLength(ts);
    LinesOfLine(c, "");
    assert c + "\n" + "" == c + "\n";
    NoLines();
    PrintedNumber(CounterField, counter);
    ParsersKeepToFields();
    NothingFound(PARSERS);
    FieldFirst(PARSERS, CounterField, Dec(counter), []);
    assert Lines(c + "\n") == [c] + [];
    LinesOfLine(n, c + "\n");
    EmptyFirst(PARSERS, Lines(c + "\n"));
    assert [n, ""] + Lines(c + "\n") == [n] + ([""] + Lines(c + "\n"));
    PrintedText(NonceField, nonce);
    FieldFirst(PARSERS, NonceField, nonce, Lines(c + "\n"));
    FieldFirst(PARSERS, NonceField, nonce, [""] + Lines(c + "\n"));
    LinesOfLine(t, n + "\n" + (c + "\n"));
    PrintedNumber(TimestampField, ts);
    FieldFirst(PARSERS, TimestampField, Dec(ts), Lines(n + "\n" + (c + "\n")));
  }

  lemma NoLines()
    ensures Lines("") == []
  {
  }

  /** Printing a token and reading it back gives its fields, false flags included; the ring is cut to 32 bits. */
  lemma {:induction false} PrintedTokenParses(ring: int, attested: string, root: Option<string>, ts: int, nonce: string, counter: int)
    requires FitsI64(ring) && FitsI64(ts) && FitsI64(counter) && 1 <= |nonce| <= 249 && Plain(nonce)
    requires IsFlag(attested) && (root.Some? ==> IsFlag(root.value))
    ensures var f := FieldsOf(Lines(FlaggedText(ring, attested, root, ts, nonce, counter)));
      f == PrintedFields(ring, attested, root, ts, nonce, counter) && (f.ring == Some(ring) <==> FitsI32(ring))
  {
    hide Search;
    hide KeepToFields;
    hide Lines;
    hide Dec;
    hide ToInt;
    hide IsFlag;
    var tail := Prefix(TimestampField) + Dec(ts) + "\n"
                + (Prefix(NonceField) + nonce + "\n" + (Prefix(CounterField) + Dec(counter) + "\n"));
    ParsersKeepToFields();
    TailFields(ts, nonce, counter);
    var a, r := Prefix(AttestedField) + attested, Prefix(RingField) + Dec(ring);
    FlagPlain(attested);
    PrefixPlain(AttestedField, attested);
    DecPlain(ring);
    DecLength(ring);
    PrefixPlain(RingField, Dec(ring));
    var middle := (if root.Some? then Prefix(RootField) + root.value + "\n" else "") + tail;
    if root.Some? {
      var o := Prefix(RootField) + root.value;
      FlagPlain(root.value);
      PrefixPlain(RootField, root.value);
      assert middle == o + "\n" + tail;
      LinesOfLine(o, tail);
      PrintedFlag(RootField, root.value);
      FieldFirst(PARSERS, RootField, root.value, Lines(tail));
    } else {
      assert middle == tail;
    }
    LinesOfLine(a, middle);
    PrintedFlag(AttestedField, attested);
    FieldFirst(PARSERS, AttestedField, attested, Lines(middle));
    LinesOfLine(r, a + "\n" + middle);
    PrintedNumber(RingField, ring);
    FieldFirst(PARSERS, RingField, Dec(ring), Lines(a + "\n" + middle));
    assert FlaggedText(ring, attested, root, ts, nonce, counter) == r + "\n" + (a + "\n" + middle);
  }
}
