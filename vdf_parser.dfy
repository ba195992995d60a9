/** The "simple VDF" reader of sVDF/parser.go: a scanner for double-quoted,
    escape-aware strings, a recursive-descent parser building a tree of
    name/value lists, and an advisory whitespace checker that only logs warnings.

    The pure functions (ScanString, SkipWs, ParseStringF, ParseValueF, MembersF,
    ParseDocument) state what each step computes from the buffer and the parser
    state; the class Parser carries the same steps as the loops of parseString,
    parseValue and skipWhitespace,
    and each of its methods is proved to leave exactly the state its function
    describes. */
module VdfParser {
  import opened Wrappers
  import opened GoText

  const Tab: byte := 0x09
  const LF: byte := 0x0A
  const CR: byte := 0x0D
  const Space: byte := 0x20
  const Quote: byte := 0x22
  const Backslash: byte := 0x5C
  const OpenBrace: byte := 0x7B
  const CloseBrace: byte := 0x7D

  /** A value of the string-only dialect: a leaf string or a name/value list. */
  datatype Value = Leaf(str: string) | Node(nvl: map<string, Value>)

  /** What skipWhitespace expects after a token (expectTabs / expectNewline). */
  datatype Expectation = ExpectTabs | ExpectNewline

  /** The diagnostics of the hard errors, one per call of parseError. */
  datatype Diagnostic =
    | ExpectedQuote                    // `expected '"', got`
    | BackslashBeforeEOF               // `\ just before EOF`
    | BadEscape(sequence: seq<byte>)   // `bad escape sequence %q`
    | UnterminatedString               // `Unterminated string`
    | ExpectedQuoteOrBrace             // `Expected '"' or '{', got`
    | ExpectedName                     // `Expected double-quoted name, got`
    | ExpectedMemberOrClose            // `expected '}', '"' or '{', got`
    | UnexpectedEOFInNVL               // `unexpected EOF in NVL`

  /** ParseError: offsets are zero-origin, line and rune numbers one-origin. */
  datatype ParseError = ParseError(
    filePath: string,
    fileOffset: int,
    lineNumber: int,
    runeNumber: int,
    nextRune: int,
    diagnostic: Diagnostic)

  /** How a step of the parser fails: parseError at byte `offset`, or the Go
      runtime panicking on the out-of-range index `p.buf[offset]`. The other
      fields of the ParseError follow from the offset (ErrorAt). */
  datatype Failure = Syntax(offset: int, diagnostic: Diagnostic) | IndexPanic(offset: int)

  /** The step at which a file could not be got at: os.Open and Stat in
      sVDF.FromFile, ioutil.ReadAll in parseSimpleVDF. */
  datatype FileStep = Open | Examine | Read

  /** What opening, examining, reading and parsing a file gives when it fails:
      a ParseError, the runtime panic, or the step that failed (the bytes
      handed to ParseSimpleVdfF were read, so it never gives Unreadable). */
  datatype VdfFailure = BadSyntax(err: ParseError) | Panic(offset: int) | Unreadable(step: FileStep)

  /** The complaints of warnOddWS. */
  datatype WarningKind =
    | ExpectedNewlineAfter(what: string)              // `expected newline after ...`
    | EOFAfterTab                                     // `EOF after tab`
    | ExpectedQuoteAfterTabs                          // `expected '"' after name and tabs`
    | TabCountMismatch(expected: int, found: int)     // `expected %s, found %s`, counts of tabs

  /** One call of warnOddWS: the offset it complains about and why. */
  datatype OddWs = OddWs(offset: int, kind: WarningKind)

  /** The line warnOddWS writes to standard error for an OddWs; `detail` is
      its text, which the complaints without arguments follow with `nextRune`. */
  datatype Warning = Warning(filePath: string, offset: int, lineNumber: int, nextRune: int, detail: string)

  /** The mutable part of the parser: cursor, brace depth and warnings so far. */
  datatype PState = PState(pos: int, depth: int, warnings: seq<OddWs>)

  type Member = (string, Value)

  /*=========================== Positions and runes ===========================*/

  function CountNewlines(s: seq<byte>): nat
  {
    if |s| == 0 then 0 else CountNewlines(s[..|s| - 1]) + (if s[|s| - 1] == LF then 1 else 0)
  }

  /** bytes.LastIndex(s, "\n"): the index of the last newline, or -1. */
  function LastNewline(s: seq<byte>): (r: int)
    ensures -1 <= r < |s|
    ensures r >= 0 ==> s[r] == LF
  {
    if |s| == 0 then -1
    else if s[|s| - 1] == LF then |s| - 1
    else LastNewline(s[..|s| - 1])
  }

  const RuneError: int := 0xFFFD

  datatype Decoded = Decoded(rune: int, size: nat)

  /** utf8.DecodeRune: the first rune of `s` and its length; an invalid or
      truncated encoding gives RuneError with length 1, an empty input length 0. */
  function DecodeRune(s: seq<byte>): (d: Decoded)
    ensures |s| == 0 ==> d.size == 0
    ensures |s| > 0 ==> 1 <= d.size <= |s| && d.size <= 4
    ensures |s| > 0 && s[0] < 0x80 ==> d == Decoded(s[0] as int, 1)
    ensures 0 <= d.rune <= 0x10FFFF
  {
    if |s| == 0 then Decoded(RuneError, 0)
    else
      var b0 := s[0] as int;
      if b0 < 0x80 then Decoded(b0, 1)
      else if b0 < 0xC2 || b0 > 0xF4 then Decoded(RuneError, 1)
      else
        var size := if b0 < 0xE0 then 2 else if b0 < 0xF0 then 3 else 4;
        var lo := if b0 == 0xE0 then 0xA0 else if b0 == 0xF0 then 0x90 else 0x80;
        var hi := if b0 == 0xED then 0x9F else if b0 == 0xF4 then 0x8F else 0xBF;
        if |s| < size then Decoded(RuneError, 1)
        else
          var b1 := s[1] as int;
          if b1 < lo || hi < b1 then Decoded(RuneError, 1)
          else if size == 2 then Decoded((b0 - 0xC0) * 0x40 + (b1 - 0x80), 2)
          else
            var b2 := s[2] as int;
            if b2 < 0x80 || 0xBF < b2 then Decoded(RuneError, 1)
            else if size == 3 then Decoded((b0 - 0xE0) * 0x1000 + (b1 - 0x80) * 0x40 + (b2 - 0x80), 3)
            else
              var b3 := s[3] as int;
              if b3 < 0x80 || 0xBF < b3 then Decoded(RuneError, 1)
              else Decoded((b0 - 0xF0) * 0x40000 + (b1 - 0x80) * 0x1000 + (b2 - 0x80) * 0x40 + (b3 - 0x80), 4)
  }

  /** utf8.RuneCount: every invalid byte counts as one rune. */
  function RuneCount(s: seq<byte>): nat
    decreases |s|
  {
    if |s| == 0 then 0 else 1 + RuneCount(s[DecodeRune(s).size..])
  }

  /** The one-origin line of byte offset `pos`: one more than the newlines before it. */
  function LineAt(buf: seq<byte>, pos: int): int
    requires 0 <= pos <= |buf|
  {
    CountNewlines(buf[..pos]) + 1
  }

  /** The offset at which the line holding `pos` starts. */
  function LineStart(buf: seq<byte>, pos: int): (r: int)
    requires 0 <= pos <= |buf|
    ensures 0 <= r <= pos
  {
    LastNewline(buf[..pos]) + 1
  }

  /** The one-origin rune number of `pos` within its line. */
  function RuneAt(buf: seq<byte>, pos: int): int
    requires 0 <= pos <= |buf|
  {
    RuneCount(buf[LineStart(buf, pos)..pos]) + 1
  }

  /** The rune that starts at `pos` (RuneError at the end of the buffer). */
  function NextRune(buf: seq<byte>, pos: int): int
    requires 0 <= pos <= |buf|
  {
    DecodeRune(buf[pos..]).rune
  }

  /** parseError: the error at byte offset `pos`. */
  function ErrorAt(path: string, buf: seq<byte>, pos: int, diag: Diagnostic): (e: ParseError)
    requires 0 <= pos <= |buf|
    ensures e.filePath == path && e.fileOffset == pos && e.diagnostic == diag
    ensures e.lineNumber >= 1 && e.runeNumber >= 1
  {
    ParseError(path, pos, LineAt(buf, pos), RuneAt(buf, pos), NextRune(buf, pos), diag)
  }

  /** warnOddWS: the line it writes for a warning at byte offset `w.offset`
      (which may be |buf|). */
  function Rendered(path: string, buf: seq<byte>, w: OddWs): Warning
    requires 0 <= w.offset <= |buf|
  {
    Warning(path, w.offset, LineAt(buf, w.offset), NextRune(buf, w.offset), Detail(w.kind))
  }

  /** The text of a complaint. */
  function Detail(kind: WarningKind): string
  {
    match kind
    case ExpectedNewlineAfter(what) => "expected newline after " + what
    case EOFAfterTab => "EOF after tab"
    case ExpectedQuoteAfterTabs => "expected '\"' after name and tabs"
    case TabCountMismatch(expected, found) => "expected " + Plural(expected, "tab") + ", found " + Plural(found, "tab")
  }

  /** plural(count, noun) */
  function Plural(count: int, noun: string): (r: string)
    ensures |r| >= 3 + |noun|
    ensures count == 1 ==> r == "one " + noun
    ensures count != 1 ==> r[0] == '-' || IsDigit(r[0])
  {
    if count == 1 then "one " + noun
    else
      ItoaSign(count);
      assert count >= 0 ==> IsDigit(Itoa(count)[0]);
      Itoa(count) + " " + noun + "s"
  }

  /*============================ The scanner ============================*/

  /** The escape table taken from Valve's utlbuffer.cpp: the byte that a
      backslash followed by `b` stands for, if any. */
  function Unescape(b: byte): (r: Option<byte>)
    ensures r.Some? ==> r.value == b || r.value < 0x20
    ensures (r.Some? && r.value == b) <==> b == Quote || b == Backslash || b == '?' as byte || b == '\'' as byte
  {
    if b == 'a' as byte then Some(0x07)
    else if b == 'b' as byte then Some(0x08)
    else if b == 'f' as byte then Some(0x0C)
    else if b == 'n' as byte then Some(LF)
    else if b == 'r' as byte then Some(CR)
    else if b == 't' as byte then Some(Tab)
    else if b == 'v' as byte then Some(0x0B)
    else if b == Quote then Some(Quote)
    else if b == '?' as byte then Some('?' as byte)
    else if b == Backslash then Some(Backslash)
    else if b == '\'' as byte then Some('\'' as byte)
    else None
  }

  /** How the body of a quoted string ends. */
  datatype Scan =
    | Closed(decoded: string, closeAt: int)      // closing quote at closeAt
    | EscapeAtEOF(at: int)                       // a backslash was the last byte
    | BadEscapeAt(at: int)                       // the byte after a backslash is not in the table
    | NoCloseQuote                               // the buffer ended first

  /** The loop of parseString, from offset `i` with `acc` decoded so far. */
  function ScanString(buf: seq<byte>, i: int, acc: string): (r: Scan)
    requires 0 <= i <= |buf|
    ensures r.Closed? ==> i <= r.closeAt < |buf| && buf[r.closeAt] == Quote
    ensures r.Closed? ==> acc <= r.decoded && |r.decoded| <= |acc| + (r.closeAt - i)
    ensures r.EscapeAtEOF? ==> r.at == |buf| && i < r.at && buf[r.at - 1] == Backslash
    ensures r.BadEscapeAt? ==> i < r.at < |buf| && buf[r.at - 1] == Backslash && Unescape(buf[r.at]).None?
    decreases |buf| - i
  {
    if i >= |buf| then NoCloseQuote
    else if buf[i] == Quote then Closed(acc, i)
    else if buf[i] == Backslash then
      if i + 1 >= |buf| then EscapeAtEOF(i + 1)
      else match Unescape(buf[i + 1]) {
        case None => BadEscapeAt(i + 1)
        case Some(c) => ScanString(buf, i + 2, acc + [ByteChar(c)])
      }
    else ScanString(buf, i + 1, acc + [ByteChar(buf[i])])
  }

  /*====================== The whitespace checker =======================*/

  predicate IsSpace(b: byte) { b == Space || b == Tab || b == CR || b == LF }

  /** The first offset at or after `i` that does not hold a tab. */
  function TabsEnd(buf: seq<byte>, i: int): (e: int)
    requires 0 <= i <= |buf|
    ensures i <= e <= |buf|
    ensures e < |buf| ==> buf[e] != Tab
    decreases |buf| - i
  {
    if i < |buf| && buf[i] == Tab then TabsEnd(buf, i + 1) else i
  }

  /** The first offset at or after `i` that does not hold a space, tab, CR or LF. */
  function SpaceEnd(buf: seq<byte>, i: int): (e: int)
    requires 0 <= i <= |buf|
    ensures i <= e <= |buf|
    ensures e < |buf| ==> !IsSpace(buf[e])
    decreases |buf| - i
  {
    if i < |buf| && IsSpace(buf[i]) then SpaceEnd(buf, i + 1) else i
  }

  function Warn(path: string, buf: seq<byte>, st: PState, at: int, kind: WarningKind): PState
    requires 0 <= at <= |buf|
  {
    st.(warnings := st.warnings + [OddWs(at, kind)])
  }

  /** The label `skippingExtra`: skip any run of space, tab, CR and LF. */
  function SkipExtra(buf: seq<byte>, st: PState, from: int): PState
    requires 0 <= from <= |buf|
  {
    st.(pos := SpaceEnd(buf, from))
  }

  /** After a newline at offset `bol`: count the indenting tabs and compare
      them with the depth (one less before a `}`). */
  function AtLineStart(path: string, buf: seq<byte>, st: PState, bol: int): (r: PState)
    requires 0 <= st.pos < bol <= |buf|
    ensures r.depth == st.depth
    ensures st.pos <= r.pos <= |buf|
  {
    var e := TabsEnd(buf, bol);
    var nTabs := e - bol;
    if e >= |buf| then
      if nTabs > 0 then Warn(path, buf, st, e, EOFAfterTab) else st
    else
      var expNumTabs := if buf[e] == CloseBrace then st.depth - 1 else st.depth;
      var st1 := if nTabs != expNumTabs
                 then Warn(path, buf, st, e, TabCountMismatch(expNumTabs, nTabs))
                 else st;
      SkipExtra(buf, st1, e)
  }

  /** skipWhitespace: inspects the bytes after the token ending at st.pos. */
  function SkipWs(path: string, buf: seq<byte>, st: PState, exp: Expectation): (r: PState)
    requires 0 <= st.pos <= |buf|
    ensures r.depth == st.depth
    ensures st.pos <= r.pos <= |buf|
  {
    var pos := st.pos + 1;
    if pos >= |buf| then st
    else if buf[pos] == Tab then AfterTab(path, buf, st, exp)
    else if buf[pos] == CR && pos + 1 < |buf| && buf[pos + 1] == LF then AtLineStart(path, buf, st, pos + 2)
    else if buf[pos] == LF then AtLineStart(path, buf, st, pos + 1)
    else
      var what := if exp == ExpectTabs then "name not followed by tabs" else "value";
      SkipExtra(buf, Warn(path, buf, st, pos, ExpectedNewlineAfter(what)), pos)
  }

  /** skipWhitespace when a tab follows the token: after a name, the tabs
      before its value; after a value, a missing newline. */
  function AfterTab(path: string, buf: seq<byte>, st: PState, exp: Expectation): (r: PState)
    requires 0 <= st.pos && st.pos + 1 < |buf| && buf[st.pos + 1] == Tab
    ensures r.depth == st.depth
    ensures st.pos <= r.pos <= |buf|
  {
    var pos := st.pos + 1;
    if exp != ExpectTabs then
      SkipExtra(buf, Warn(path, buf, st, pos, ExpectedNewlineAfter("value")), pos)
    else
      var e := TabsEnd(buf, pos);
      if e >= |buf| then Warn(path, buf, st, e, EOFAfterTab)
      else
        var st1 := if buf[e] != Quote then Warn(path, buf, st, e, ExpectedQuoteAfterTabs) else st;
        SkipExtra(buf, st1, e)
  }

  /*============================ The parser ============================*/

  /** parseString: a quoted string starting at st.pos, then skipWhitespace. */
  function ParseStringF(path: string, buf: seq<byte>, st: PState, exp: Expectation): (r: (Result<string, Failure>, PState))
    requires 0 <= st.pos <= |buf|
    ensures 0 <= r.1.pos <= |buf| && r.1.depth == st.depth
    ensures r.0.Err? ==> 0 <= r.0.error.offset <= |buf|
    ensures r.0.Ok? ==> r.1.pos > st.pos
    ensures st.pos == |buf| ==> r == (Err(IndexPanic(st.pos)), st)
    ensures st.pos < |buf| && buf[st.pos] != Quote ==> r == (Err(Syntax(st.pos, ExpectedQuote)), st)
  {
    if st.pos >= |buf| then (Err(IndexPanic(st.pos)), st)
    else if buf[st.pos] != Quote then (Err(Syntax(st.pos, ExpectedQuote)), st)
    else ScannedF(path, buf, st, exp, ScanString(buf, st.pos + 1, []))
  }

  /** The end of parseString, once the body of the string has been scanned. */
  function ScannedF(path: string, buf: seq<byte>, st: PState, exp: Expectation, scan: Scan): (r: (Result<string, Failure>, PState))
    requires 0 <= st.pos < |buf| && buf[st.pos] == Quote
    requires scan == ScanString(buf, st.pos + 1, [])
    ensures 0 <= r.1.pos <= |buf| && r.1.depth == st.depth
    ensures r.0.Err? ==> 0 <= r.0.error.offset <= |buf|
    ensures r.0.Ok? ==> r.1.pos > st.pos
  {
    match scan {
      case EscapeAtEOF(at) =>
        (Err(Syntax(at, BackslashBeforeEOF)), st.(pos := at))
      case BadEscapeAt(at) =>
        (Err(Syntax(at, BadEscape(buf[at - 1..at]))), st.(pos := at))
      case NoCloseQuote =>
        (Err(Syntax(st.pos, UnterminatedString)), st)
      case Closed(text, at) =>
        (Ok(text), SkipWs(path, buf, st.(pos := at), exp))
    }
  }

  /** The name/value list built from the members in order: a later member
      with the same name overwrites an earlier one. */
  function ToMap(ms: seq<Member>): (m: map<string, Value>)
    ensures forall i :: 0 <= i < |ms| ==> ms[i].0 in m
    ensures |ms| > 0 ==> m[ms[|ms| - 1].0] == ms[|ms| - 1].1
  {
    if |ms| == 0 then map[] else ToMap(ms[..|ms| - 1])[ms[|ms| - 1].0 := ms[|ms| - 1].1]
  }

  /** parseValue: a quoted leaf, or `{` members `}`. */
  function ParseValueF(path: string, buf: seq<byte>, st: PState): (r: (Result<Value, Failure>, PState))
    requires 0 <= st.pos <= |buf|
    ensures 0 <= r.1.pos <= |buf|
    ensures r.0.Err? ==> 0 <= r.0.error.offset <= |buf|
    ensures r.0.Ok? ==> r.1.pos > st.pos && r.1.depth == st.depth
    decreases |buf| - st.pos, 3
  {
    if st.pos >= |buf| then (Err(IndexPanic(st.pos)), st)
    else if buf[st.pos] == Quote then
      var s := ParseStringF(path, buf, st, ExpectNewline);
      (if s.0.Ok? then Ok(Leaf(s.0.value)) else Err(s.0.error), s.1)
    else if buf[st.pos] != OpenBrace then
      (Err(Syntax(st.pos, ExpectedQuoteOrBrace)), st)
    else NodeF(path, buf, st)
  }

  /** The `{` branch of parseValue: one more level of indentation, then the members. */
  function NodeF(path: string, buf: seq<byte>, st: PState): (r: (Result<Value, Failure>, PState))
    requires 0 <= st.pos < |buf| && buf[st.pos] == OpenBrace
    ensures 0 <= r.1.pos <= |buf|
    ensures r.0.Err? ==> 0 <= r.0.error.offset <= |buf|
    ensures r.0.Ok? ==> r.1.pos > st.pos && r.1.depth == st.depth
    decreases |buf| - st.pos, 2
  {
    var st1 := SkipWs(path, buf, st.(depth := st.depth + 1), ExpectNewline);
    var ms := MembersF(path, buf, st1, []);
    (if ms.0.Ok? then Ok(Node(ToMap(ms.0.value))) else Err(ms.0.error), ms.1)
  }

  /** NodeF in two steps: the whitespace after `{`, then the member loop. */
  lemma NodeSteps(path: string, buf: seq<byte>, st: PState, st1: PState, ms: (Result<seq<Member>, Failure>, PState))
    requires 0 <= st.pos < |buf| && buf[st.pos] == OpenBrace
    requires st1 == SkipWs(path, buf, st.(depth := st.depth + 1), ExpectNewline)
    requires ms == MembersF(path, buf, st1, [])
    ensures NodeF(path, buf, st).1 == ms.1
    ensures NodeF(path, buf, st).0 == if ms.0.Ok? then Ok(Node(ToMap(ms.0.value))) else Err(ms.0.error)
  {
  }

  /** The loop of parseValue over the members of a `{ }` list, `acc` holding
      the members parsed so far. */
  function MembersF(path: string, buf: seq<byte>, st: PState, acc: seq<Member>): (r: (Result<seq<Member>, Failure>, PState))
    requires 0 <= st.pos <= |buf|
    ensures 0 <= r.1.pos <= |buf|
    ensures r.0.Err? ==> 0 <= r.0.error.offset <= |buf|
    ensures r.0.Ok? ==> st.pos < |buf| && (buf[st.pos] == Quote || buf[st.pos] == CloseBrace) && r.1.pos >= st.pos
    ensures r.0.Ok? ==> r.1.depth == st.depth - 1
    decreases |buf| - st.pos, 1
  {
    if st.pos >= |buf| then
      var st1 := SkipWs(path, buf, st, ExpectNewline);
      (Err(Syntax(st1.pos, UnexpectedEOFInNVL)), st1)
    else if buf[st.pos] == Quote then
      MemberF(path, buf, st, acc)
    else if buf[st.pos] == CloseBrace then
      (Ok(acc), SkipWs(path, buf, st.(depth := st.depth - 1), ExpectNewline))
    else
      (Err(Syntax(st.pos, ExpectedMemberOrClose)), st)
  }

  /** The ways out of the member loop, each as MembersF takes it. */
  lemma MembersExits(path: string, buf: seq<byte>, st: PState, acc: seq<Member>)
    requires 0 <= st.pos <= |buf|
    ensures st.pos < |buf| && buf[st.pos] == CloseBrace ==>
      MembersF(path, buf, st, acc) == (Ok(acc), SkipWs(path, buf, st.(depth := st.depth - 1), ExpectNewline))
    ensures st.pos < |buf| && buf[st.pos] != Quote && buf[st.pos] != CloseBrace ==>
      MembersF(path, buf, st, acc) == (Err(Syntax(st.pos, ExpectedMemberOrClose)), st)
    ensures st.pos >= |buf| ==>
      MembersF(path, buf, st, acc) == (Err(Syntax(SkipWs(path, buf, st, ExpectNewline).pos, UnexpectedEOFInNVL)), SkipWs(path, buf, st, ExpectNewline))
  {
  }

  /** One `"name" value` member of a list, then the rest of the list. */
  function MemberF(path: string, buf: seq<byte>, st: PState, acc: seq<Member>): (r: (Result<seq<Member>, Failure>, PState))
    requires 0 <= st.pos < |buf| && buf[st.pos] == Quote
    ensures 0 <= r.1.pos <= |buf|
    ensures r.0.Err? ==> 0 <= r.0.error.offset <= |buf|
    ensures r.0.Ok? ==> r.1.pos >= st.pos && r.1.depth == st.depth - 1
    decreases |buf| - st.pos, 0
  {
    var name := ParseStringF(path, buf, st, ExpectTabs);
    if name.0.Err? then (Err(Syntax(name.1.pos, ExpectedName)), name.1)
    else
      var value := ParseValueF(path, buf, name.1);
      if value.0.Err? then (Err(value.0.error), value.1)
      else MembersF(path, buf, value.1, acc + [(name.0.value, value.0.value)])
  }

  /** parseSimpleVDF on a buffer: the top name, then its value. */
  function ParseDocument(path: string, buf: seq<byte>): (r: (Result<(string, Value), Failure>, PState))
    ensures r.0.Err? ==> 0 <= r.0.error.offset <= |buf|
  {
    var name := ParseStringF(path, buf, PState(0, 0, []), ExpectTabs);
    if name.0.Err? then (Err(name.0.error), name.1)
    else
      var value := ParseValueF(path, buf, name.1);
      if value.0.Err? then (Err(value.0.error), value.1)
      else (Ok((name.0.value, value.0.value)), value.1)
  }

  /** The error parseSimpleVDF hands back for a failure: the ParseError that
      parseError builds at its offset, or the runtime panic. */
  function Report(path: string, buf: seq<byte>, f: Failure): VdfFailure
    requires 0 <= f.offset <= |buf|
  {
    match f
    case Syntax(at, d) => BadSyntax(ErrorAt(path, buf, at, d))
    case IndexPanic(at) => Panic(at)
  }

  /** parseSimpleVDF: the result, and the warnings written along the way. */
  function ParseSimpleVdfF(path: string, buf: seq<byte>): (r: (Result<(string, Value), VdfFailure>, seq<OddWs>))
    ensures r.0.Ok? ==> |buf| > 0 && buf[0] == Quote
    ensures r.0.Err? ==> !r.0.error.Unreadable?
    ensures r.0.Err? && r.0.error.BadSyntax? ==>
      r.0.error.err.filePath == path && 0 <= r.0.error.err.fileOffset <= |buf| && r.0.error.err.lineNumber >= 1
    ensures r.0.Err? && r.0.error.Panic? ==> 0 <= r.0.error.offset <= |buf|
  {
    var r := ParseDocument(path, buf);
    (if r.0.Ok? then Ok(r.0.value) else Err(Report(path, buf, r.0.error)), r.1.warnings)
  }

  /*============== The parser as sVDF/parser.go writes it ==============*/

  /** The `parser` struct: the buffer and file name never change; the cursor,
      the expected indentation and the warning log do. */
  class Parser {
    const filespec: string
    const buf: seq<byte>
    var pos: int
    var nIndentTabs: int
    var warnings: seq<OddWs>

    ghost predicate Valid()
      reads this
    {
      0 <= pos <= |buf|
    }

    function State(): PState
      reads this
    {
      PState(pos, nIndentTabs, warnings)
    }

    constructor (filespec: string, buf: seq<byte>)
      ensures Valid()
      ensures this.filespec == filespec && this.buf == buf
      ensures State() == PState(0, 0, [])
    {
      this.filespec := filespec;
      this.buf := buf;
      pos := 0;
      nIndentTabs := 0;
      warnings := [];
    }

    /** warnOddWS: appends one warning to the log. */
    method WarnOddWS(at: int, kind: WarningKind)
      requires 0 <= at <= |buf|
      modifies this`warnings
      ensures warnings == old(warnings) + [OddWs(at, kind)]
    {
      warnings := warnings + [OddWs(at, kind)];
    }

    /** skippingExtra: moves the cursor past any run of space, tab, CR and LF
        starting at `from`. */
    method SkipExtraFrom(from: int)
      requires 0 <= from <= |buf|
      modifies this`pos
      ensures Valid() && pos == SpaceEnd(buf, from)
    {
      var pos := from;
      while pos < |buf| && IsSpace(buf[pos])
        invariant from <= pos <= |buf|
        invariant SpaceEnd(buf, from) == SpaceEnd(buf, pos)
        decreases |buf| - pos
      {
        pos := pos + 1;
      }
      this.pos := pos;
    }

    /** The `atBOL` part of skipWhitespace: counts the tabs that start the line
        at `bol` and checks them against the depth. */
    method CheckIndent(bol: int)
      requires Valid() && pos < bol <= |buf|
      modifies this`pos, this`warnings
      ensures Valid()
      ensures State() == AtLineStart(filespec, buf, old(State()), bol)
    {
      var pos := bol;
      var nTabs := 0;
      while pos < |buf| && buf[pos] == Tab
        invariant bol <= pos <= |buf| && nTabs == pos - bol
        invariant TabsEnd(buf, bol) == TabsEnd(buf, pos)
        decreases |buf| - pos
      {
        nTabs := nTabs + 1;
        pos := pos + 1;
      }
      if pos >= |buf| {
        if nTabs > 0 {
          WarnOddWS(pos, EOFAfterTab);
        }
        return;
      }
      var ch := buf[pos];
      var expNumTabs := nIndentTabs;
      if ch == CloseBrace {
        expNumTabs := expNumTabs - 1;
      }
      if nTabs != expNumTabs {
        WarnOddWS(pos, TabCountMismatch(expNumTabs, nTabs));
      }
      SkipExtraFrom(pos);
    }

    method SkipWhitespace(expectation: Expectation)
      requires Valid()
      modifies this`pos, this`warnings
      ensures Valid()
      ensures State() == SkipWs(filespec, buf, old(State()), expectation)
    {
      var what := "value";
      if expectation == ExpectTabs {
        what := "name not followed by tabs";
      }
      var pos := this.pos + 1;
      if pos >= |buf| {
        return;
      }
      var ch := buf[pos];
      if ch == Tab {
        if expectation != ExpectTabs {
          WarnOddWS(pos, ExpectedNewlineAfter("value"));
        } else {
          ghost var first := pos;
          while ch == Tab
            invariant first <= pos < |buf| && ch == buf[pos]
            invariant TabsEnd(buf, first) == TabsEnd(buf, pos)
            invariant unchanged(this)
            decreases |buf| - pos
          {
            pos := pos + 1;
            if pos >= |buf| {
              WarnOddWS(pos, EOFAfterTab);
              return;
            }
            ch := buf[pos];
          }
          if ch != Quote {
            WarnOddWS(pos, ExpectedQuoteAfterTabs);
          }
        }
        SkipExtraFrom(pos);
      } else if ch == CR && pos + 1 < |buf| && buf[pos + 1] == LF {
        CheckIndent(pos + 2);
      } else if ch == LF {
        CheckIndent(pos + 1);
      } else {
        WarnOddWS(pos, ExpectedNewlineAfter(what));
        SkipExtraFrom(pos);
      }
    }

    /** The loop of parseString: decodes the body of a quoted string from
        offset `start` and says how it ended. */
    method ScanQuoted(start: int) returns (scan: Scan)
      requires 0 <= start <= |buf|
      ensures scan == ScanString(buf, start, [])
    {
      var b: string := [];
      var pos := start;
      while pos < |buf| && buf[pos] != Quote
        invariant start <= pos <= |buf|
        invariant ScanString(buf, start, []) == ScanString(buf, pos, b)
        decreases |buf| - pos
      {
        var ch := buf[pos];
        if ch == Backslash {
          pos := pos + 1;
          if pos >= |buf| {
            return EscapeAtEOF(pos);
          }
          ch := buf[pos];
          var decoded := Unescape(ch);
          if decoded.None? {
            return BadEscapeAt(pos);
          }
          ch := decoded.value;
        }
        b := b + [ByteChar(ch)];
        pos := pos + 1;
      }
      if pos >= |buf| {
        return NoCloseQuote;
      }
      return Closed(b, pos);
    }

    method ParseString(expectation: Expectation) returns (r: Result<string, Failure>)
      requires Valid()
      modifies this`pos, this`warnings
      ensures Valid()
      ensures (r, State()) == ParseStringF(filespec, buf, old(State()), expectation)
    {
      var pos := this.pos;
      if pos >= |buf| {
        return Err(IndexPanic(pos));
      }
      if buf[pos] != Quote {
        return Err(Syntax(this.pos, ExpectedQuote));
      }
      var scan := ScanQuoted(pos + 1);
      r := FinishString(expectation, scan);
    }

    /** The end of parseString: the error of a bad body, or the whitespace
        after the closing quote. */
    method FinishString(expectation: Expectation, scan: Scan) returns (r: Result<string, Failure>)
      requires Valid() && pos < |buf| && buf[pos] == Quote
      requires scan == ScanString(buf, pos + 1, [])
      modifies this`pos, this`warnings
      ensures Valid()
      ensures (r, State()) == ScannedF(filespec, buf, old(State()), expectation, scan)
    {
      match scan {
        case EscapeAtEOF(at) =>
          this.pos := at;
          return Err(Syntax(this.pos, BackslashBeforeEOF));
        case BadEscapeAt(at) =>
          var sequence := buf[at - 1..at];
          this.pos := at;
          return Err(Syntax(this.pos, BadEscape(sequence)));
        case NoCloseQuote =>
          return Err(Syntax(this.pos, UnterminatedString));
        case Closed(text, at) =>
          this.pos := at;
          SkipWhitespace(expectation);
          return Ok(text);
      }
    }

    method ParseValue() returns (r: Result<Value, Failure>)
      requires Valid()
      modifies this
      ensures Valid()
      ensures (r, State()) == ParseValueF(filespec, buf, old(State()))
      decreases |buf| - pos, 3
    {
      var pos := this.pos;
      if pos >= |buf| {
        return Err(IndexPanic(pos));
      }
      var ch := buf[pos];
      if ch == Quote {
        var s := ParseString(ExpectNewline);
        return if s.Ok? then Ok(Leaf(s.value)) else Err(s.error);
      } else if ch != OpenBrace {
        return Err(Syntax(this.pos, ExpectedQuoteOrBrace));
      }
      r := ParseNvl();
    }

    /** The `{` branch of parseValue: the members up to the matching `}`. */
    method ParseNvl() returns (r: Result<Value, Failure>)
      requires Valid() && pos < |buf| && buf[pos] == OpenBrace
      modifies this
      ensures Valid()
      ensures (r, State()) == NodeF(filespec, buf, old(State()))
      decreases |buf| - pos, 2
    {
      ghost var st0 := State();
      nIndentTabs := nIndentTabs + 1;
      SkipWhitespace(ExpectNewline);
      NodeSteps(filespec, buf, st0, State(), MembersF(filespec, buf, State(), []));
      var nvl := ParseMembers();
      return if nvl.Ok? then Ok(Node(nvl.value)) else Err(nvl.error);
    }

    /** The member loop of the `{` branch, up to and past the matching `}`. */
    method ParseMembers() returns (r: Result<map<string, Value>, Failure>)
      requires Valid()
      modifies this
      ensures Valid()
      ensures var whole := MembersF(filespec, buf, old(State()), []);
        && State() == whole.1
        && r == (if whole.0.Ok? then Ok(ToMap(whole.0.value)) else Err(whole.0.error))
      decreases |buf| - pos, 1
    {
      ghost var whole := MembersF(filespec, buf, State(), []);
      var nvl: map<string, Value> := map[];
      ghost var members: seq<Member> := [];
      while this.pos < |buf|
        invariant Valid() && this.pos >= old(pos)
        invariant nvl == ToMap(members)
        invariant MembersF(filespec, buf, State(), members) == whole
        decreases |buf| - this.pos
      {
        MembersExits(filespec, buf, State(), members);
        var c := buf[this.pos];
        if c == Quote {
          var member := ParseMember(members);
          if member.Err? {
            return Err(member.error);
          }
          nvl := nvl[member.value.0 := member.value.1];
          members := members + [member.value];
        } else if c == CloseBrace {
          nIndentTabs := nIndentTabs - 1;
          SkipWhitespace(ExpectNewline);
          return Ok(nvl);
        } else {
          return Err(Syntax(this.pos, ExpectedMemberOrClose));
        }
      }
      MembersExits(filespec, buf, State(), members);
      SkipWhitespace(ExpectNewline);
      return Err(Syntax(this.pos, UnexpectedEOFInNVL));
    }

    /** One pass of the member loop: a quoted name, then its value. */
    method ParseMember(ghost acc: seq<Member>) returns (r: Result<Member, Failure>)
      requires Valid() && pos < |buf| && buf[pos] == Quote
      modifies this
      ensures Valid()
      ensures r.Ok? ==> pos > old(pos)
      ensures r.Ok? ==> MemberF(filespec, buf, old(State()), acc) == MembersF(filespec, buf, State(), acc + [r.value])
      ensures r.Err? ==> MemberF(filespec, buf, old(State()), acc) == (Err(r.error), State())
      decreases |buf| - pos, 0
    {
      var name := ParseString(ExpectTabs);
      if name.Err? {
        return Err(Syntax(this.pos, ExpectedName));
      }
      var value := ParseValue();
      if value.Err? {
        return Err(value.error);
      }
      return Ok((name.value, value.value));
    }
  }

  /** parseSimpleVDF on the bytes of a file: the top name and value, and the
      warnings that were written to standard error. */
  method ParseSimpleVdf(path: string, data: seq<byte>) returns (r: Result<(string, Value), VdfFailure>, warnings: seq<OddWs>)
    ensures (r, warnings) == ParseSimpleVdfF(path, data)
  {
    var p := new Parser(path, data);
    var name := p.ParseString(ExpectTabs);
    if name.Err? {
      return Err(Report(path, data, name.error)), p.warnings;
    }
    var value := p.ParseValue();
    if value.Err? {
      return Err(Report(path, data, value.error)), p.warnings;
    }
    return Ok((name.value, value.value)), p.warnings;
  }
}
