/** What the sVDF reader promises: quoted strings written with Valve's escapes
    read back unchanged, the whitespace checker only ever moves to the next
    token, indentation is reported exactly when the tab count is wrong, error
    positions count lines and runes as a text editor would, and a name that
    appears twice in one list keeps its last value. */
module VdfParserFacts {
  import opened Wrappers
  import opened GoText
  import opened VdfParser

  /*============================ Escapes ============================*/

  /** The letter Valve's writer puts after a backslash for byte `b`, if it
      escapes `b` at all. */
  function EscapeLetter(b: byte): Option<byte>
  {
    if b == 0x07 then Some('a' as byte)
    else if b == 0x08 then Some('b' as byte)
    else if b == 0x0C then Some('f' as byte)
    else if b == LF then Some('n' as byte)
    else if b == CR then Some('r' as byte)
    else if b == Tab then Some('t' as byte)
    else if b == 0x0B then Some('v' as byte)
    else if b == Quote then Some(Quote)
    else if b == Backslash then Some(Backslash)
    else None
  }

  /** The escape table decodes every escape the writer produces back to its byte,
      and the bytes it leaves unescaped are neither a quote nor a backslash. */
  lemma EscapeLetterInverse(b: byte)
    ensures EscapeLetter(b).Some? ==> Unescape(EscapeLetter(b).value) == Some(b)
    ensures EscapeLetter(b).None? ==> b != Quote && b != Backslash
  {
  }

  /** The body of a quoted string as Valve's writer emits it. */
  function Escape(s: seq<byte>): (e: seq<byte>)
    ensures |s| <= |e| <= 2 * |s|
  {
    if |s| == 0 then []
    else
      (match EscapeLetter(s[0]) { case Some(c) => [Backslash, c] case None => [s[0]] }) + Escape(s[1..])
  }

  /** Scanning an escaped body up to its closing quote yields the original bytes. */
  lemma {:induction false} ScanEscaped(buf: seq<byte>, i: int, acc: string, s: seq<byte>)
    requires 0 <= i && i + |Escape(s)| < |buf|
    requires buf[i..i + |Escape(s)|] == Escape(s)
    requires buf[i + |Escape(s)|] == Quote
    ensures ScanString(buf, i, acc) == Closed(acc + BytesToString(s), i + |Escape(s)|)
    decreases |s|
  {
    if |s| == 0 {
      assert Escape(s) == [] && buf[i] == Quote;
      assert acc + BytesToString(s) == acc;
    } else {
      var n := EscapedHead(buf, i, s);
      ScanEscaped(buf, i + n, acc + [ByteChar(s[0])], s[1..]);
      ScanEscapedStep(buf, i, acc, s, n);
    }
  }

  /** One step of ScanEscaped: once the rest of s scans to its closing quote,
      so does s, its first byte decoded first. */
  lemma ScanEscapedStep(buf: seq<byte>, i: int, acc: string, s: seq<byte>, n: nat)
    requires |s| > 0 && 0 <= i && i + |Escape(s)| < |buf|
    requires buf[i..i + |Escape(s)|] == Escape(s)
    requires n == (if EscapeLetter(s[0]).Some? then 2 else 1)
    requires n + |Escape(s[1..])| == |Escape(s)|
    requires ScanString(buf, i + n, acc + [ByteChar(s[0])])
      == Closed(acc + [ByteChar(s[0])] + BytesToString(s[1..]), i + n + |Escape(s[1..])|)
    ensures ScanString(buf, i, acc) == Closed(acc + BytesToString(s), i + |Escape(s)|)
  {
    var m := EscapedHead(buf, i, s);
    ScanOneByte(buf, i, acc, s[0]);
    BytesToStringCons(s[0], s[1..]);
    assert [s[0]] + s[1..] == s;
  }

  /** Where Escape(s) lies in buf, its first byte's escape takes n bytes and
      the escape of the rest follows. */
  lemma EscapedHead(buf: seq<byte>, i: int, s: seq<byte>) returns (n: nat)
    requires |s| > 0 && 0 <= i && i + |Escape(s)| <= |buf|
    requires buf[i..i + |Escape(s)|] == Escape(s)
    ensures n == (if EscapeLetter(s[0]).Some? then 2 else 1)
    ensures |Escape(s)| == n + |Escape(s[1..])|
    ensures buf[i + n..i + |Escape(s)|] == Escape(s[1..])
    ensures n == 2 ==> buf[i] == Backslash && buf[i + 1] == EscapeLetter(s[0]).value
    ensures n == 1 ==> buf[i] == s[0]
  {
    var head := match EscapeLetter(s[0]) { case Some(c) => [Backslash, c] case None => [s[0]] };
    n := |head|;
    assert Escape(s) == head + Escape(s[1..]);
    assert buf[i + n..i + |Escape(s)|] == Escape(s)[n..];
    assert buf[i] == Escape(s)[0];
    if n == 2 {
      assert buf[i + 1] == Escape(s)[1];
    }
  }

  /** parseString takes one byte, written escaped or plain, onto the decoded text. */
  lemma ScanOneByte(buf: seq<byte>, i: int, acc: string, b: byte)
    requires 0 <= i < |buf|
    ensures EscapeLetter(b).Some? && i + 1 < |buf| && buf[i] == Backslash && buf[i + 1] == EscapeLetter(b).value ==>
      ScanString(buf, i, acc) == ScanString(buf, i + 2, acc + [ByteChar(b)])
    ensures EscapeLetter(b).None? && buf[i] == b ==>
      ScanString(buf, i, acc) == ScanString(buf, i + 1, acc + [ByteChar(b)])
  {
    EscapeLetterInverse(b);
  }

  /** A backslash and a letter of the escape table stand for one byte; any
      other letter stops parseString with a bad escape at the letter. */
  lemma EscapeStep(buf: seq<byte>, i: int, acc: string)
    requires 0 <= i && i + 1 < |buf| && buf[i] == Backslash
    ensures Unescape(buf[i + 1]).Some? ==>
      ScanString(buf, i, acc) == ScanString(buf, i + 2, acc + [ByteChar(Unescape(buf[i + 1]).value)])
    ensures Unescape(buf[i + 1]).None? ==> ScanString(buf, i, acc) == BadEscapeAt(i + 1)
  {
  }

  /** `\?` and `\'` stand for themselves: the body `\?\'` of a quoted string
      reads as `?'`. */
  lemma SelfEscapes()
    ensures ScanString([Backslash, '?' as byte, Backslash, '\'' as byte, Quote], 0, []) == Closed("?'", 4)
  {
    var buf := [Backslash, '?' as byte, Backslash, '\'' as byte, Quote];
    EscapeStep(buf, 0, []);
    EscapeStep(buf, 2, ['?']);
  }

  /** parseString reads `"` + Escape(s) + `"` as s and leaves the cursor where
      skipWhitespace takes it from the closing quote. */
  lemma QuotedRoundTrip(path: string, buf: seq<byte>, st: PState, exp: Expectation, s: seq<byte>)
    requires 0 <= st.pos && st.pos + 1 + |Escape(s)| < |buf|
    requires buf[st.pos] == Quote
    requires buf[st.pos + 1..st.pos + 1 + |Escape(s)|] == Escape(s)
    requires buf[st.pos + 1 + |Escape(s)|] == Quote
    ensures ParseStringF(path, buf, st, exp)
         == (Ok(BytesToString(s)), SkipWs(path, buf, st.(pos := st.pos + 1 + |Escape(s)|), exp))
  {
    ScanEscaped(buf, st.pos + 1, [], s);
    assert [] + BytesToString(s) == BytesToString(s);
  }

  /** A decoded string comes from a closing quote after the opening one and is
      never longer than the bytes between the two. */
  lemma StringSpan(path: string, buf: seq<byte>, st: PState, exp: Expectation)
    requires 0 <= st.pos <= |buf|
    ensures var r := ParseStringF(path, buf, st, exp);
      r.0.Ok? ==> exists close :: st.pos < close < |buf| && buf[st.pos] == Quote && buf[close] == Quote
                    && |r.0.value| <= close - st.pos - 1
                    && r.1 == SkipWs(path, buf, st.(pos := close), exp)
  {
    if st.pos < |buf| && buf[st.pos] == Quote {
      var sc := ScanString(buf, st.pos + 1, []);
      if sc.Closed? {
        var close := sc.closeAt;
        assert st.pos < close < |buf| && buf[close] == Quote;
      }
    }
  }

  /** A bad escape is reported at the byte after the backslash, and the cursor
      is left there; a backslash as the last byte is reported at the end. */
  lemma StringBadEscape(path: string, buf: seq<byte>, st: PState, exp: Expectation)
    requires 0 <= st.pos <= |buf|
    ensures var r := ParseStringF(path, buf, st, exp);
      && (r.0.Err? && r.0.error.Syntax? && r.0.error.diagnostic.BadEscape? ==>
            var at := r.0.error.offset;
            && r.1.pos == at && st.pos + 1 < at < |buf| && buf[at - 1] == Backslash
            && Unescape(buf[at]).None? && r.0.error.diagnostic.sequence == [Backslash])
      && (r.0.Err? && r.0.error.Syntax? && r.0.error.diagnostic == BackslashBeforeEOF ==>
            r.1.pos == r.0.error.offset == |buf| && buf[|buf| - 1] == Backslash)
  {
    if st.pos < |buf| && buf[st.pos] == Quote {
      var sc := ScanString(buf, st.pos + 1, []);
      if sc.BadEscapeAt? {
        assert buf[sc.at - 1..sc.at] == [buf[sc.at - 1]];
      }
    }
  }

  /** An unterminated string is reported at the opening quote, the cursor stays
      there, and no quote after it is unescaped. */
  lemma StringUnterminated(path: string, buf: seq<byte>, st: PState, exp: Expectation)
    requires 0 <= st.pos <= |buf|
    ensures var r := ParseStringF(path, buf, st, exp);
      r.0.Err? && r.0.error.Syntax? && r.0.error.diagnostic == UnterminatedString ==>
        && r.1 == st && r.0.error.offset == st.pos && buf[st.pos] == Quote
        && forall k :: st.pos < k < |buf| ==> buf[k] != Quote || buf[k - 1] == Backslash
  {
    if st.pos < |buf| && buf[st.pos] == Quote {
      var sc := ScanString(buf, st.pos + 1, []);
      if sc.NoCloseQuote? {
        NoCloseMeansNoQuote(buf, st.pos + 1, []);
      }
    }
  }

  /** When the scanner runs off the end, every quote after the opening one is
      escaped by the byte before it. */
  lemma {:induction false} NoCloseMeansNoQuote(buf: seq<byte>, i: int, acc: string)
    requires 0 < i <= |buf|
    requires ScanString(buf, i, acc) == NoCloseQuote
    ensures forall k :: i <= k < |buf| ==> buf[k] != Quote || buf[k - 1] == Backslash
    decreases |buf| - i
  {
    if i < |buf| {
      if buf[i] == Backslash {
        var c := Unescape(buf[i + 1]).value;
        NoCloseMeansNoQuote(buf, i + 2, acc + [ByteChar(c)]);
      } else {
        NoCloseMeansNoQuote(buf, i + 1, acc + [ByteChar(buf[i])]);
      }
    }
  }

  /*======================== The whitespace checker ========================*/

  lemma {:induction false} SpaceEndSkip(buf: seq<byte>, i: int, j: int)
    requires 0 <= i <= j <= |buf|
    requires forall k :: i <= k < j ==> IsSpace(buf[k])
    ensures SpaceEnd(buf, i) == SpaceEnd(buf, j)
    decreases j - i
  {
    if i < j {
      SpaceEndSkip(buf, i + 1, j);
    }
  }

  /** Where the line-start check leaves the cursor. */
  lemma AtLineStartPos(path: string, buf: seq<byte>, st: PState, bol: int)
    requires 0 <= st.pos < bol <= |buf|
    ensures var e := TabsEnd(buf, bol);
      AtLineStart(path, buf, st, bol).pos == if e == |buf| then st.pos else SpaceEnd(buf, e)
  {
  }

  /** Tabs are whitespace: the run of tabs from `i` lies inside the run of whitespace. */
  lemma {:induction false} TabsWithinSpace(buf: seq<byte>, i: int)
    requires 0 <= i <= |buf|
    ensures SpaceEnd(buf, i) == SpaceEnd(buf, TabsEnd(buf, i))
    decreases |buf| - i
  {
    if i < |buf| && buf[i] == Tab {
      TabsWithinSpace(buf, i + 1);
    }
  }

  /** Where skipWhitespace leaves the cursor after a newline at `bol`. */
  function LineStartPos(buf: seq<byte>, pos: int, bol: int): int
    requires 0 <= bol <= |buf|
  {
    var e := TabsEnd(buf, bol);
    if e >= |buf| then pos else SpaceEnd(buf, e)
  }

  /** Where skipWhitespace leaves the cursor, apart from its warnings. */
  function SkipWsPos(buf: seq<byte>, pos: int, exp: Expectation): int
    requires 0 <= pos <= |buf|
  {
    var next := pos + 1;
    if next >= |buf| then pos
    else if buf[next] == Tab then
      if exp != ExpectTabs then SpaceEnd(buf, next) else LineStartPos(buf, pos, next)
    else if buf[next] == CR && next + 1 < |buf| && buf[next + 1] == LF then LineStartPos(buf, pos, next + 2)
    else if buf[next] == LF then LineStartPos(buf, pos, next + 1)
    else SpaceEnd(buf, next)
  }

  /** skipWhitespace leaves the cursor at SkipWsPos. */
  lemma SkipWsMoves(path: string, buf: seq<byte>, st: PState, exp: Expectation)
    requires 0 <= st.pos <= |buf|
    ensures SkipWs(path, buf, st, exp).pos == SkipWsPos(buf, st.pos, exp)
  {
    var next := st.pos + 1;
    if next < |buf| {
      if buf[next] == Tab {
        assert SkipWs(path, buf, st, exp) == AfterTab(path, buf, st, exp);
      } else if buf[next] == CR && next + 1 < |buf| && buf[next + 1] == LF {
        AtLineStartPos(path, buf, st, next + 2);
      } else if buf[next] == LF {
        AtLineStartPos(path, buf, st, next + 1);
      }
    }
  }

  /** skipWhitespace either moves the cursor to the first byte after the token
      that is not whitespace, or leaves it on the token; the latter only when
      nothing but whitespace follows. */
  lemma SkipWsFindsNextToken(path: string, buf: seq<byte>, st: PState, exp: Expectation)
    requires 0 <= st.pos < |buf|
    ensures var r := SkipWs(path, buf, st, exp);
      && (r.pos == st.pos || r.pos == SpaceEnd(buf, st.pos + 1))
      && (SpaceEnd(buf, st.pos + 1) < |buf| ==> r.pos == SpaceEnd(buf, st.pos + 1))
  {
    SkipWsMoves(path, buf, st, exp);
    var pos := st.pos + 1;
    if pos < |buf| {
      var ch := buf[pos];
      if ch == Tab {
        TabsWithinSpace(buf, pos);
      } else if ch == CR && pos + 1 < |buf| && buf[pos + 1] == LF {
        TabsWithinSpace(buf, pos + 2);
        assert SpaceEnd(buf, pos) == SpaceEnd(buf, pos + 2);
      } else if ch == LF {
        TabsWithinSpace(buf, pos + 1);
        assert SpaceEnd(buf, pos) == SpaceEnd(buf, pos + 1);
      }
    }
  }

  /** At the end of the buffer skipWhitespace does nothing at all. */
  lemma SkipWsAtEnd(path: string, buf: seq<byte>, st: PState, exp: Expectation)
    requires 0 <= st.pos <= |buf| && st.pos + 1 >= |buf|
    ensures SkipWs(path, buf, st, exp) == st
  {
  }

  /** The tab count expected before the byte at `e`: the depth, one less before `}`. */
  function ExpectedTabs(buf: seq<byte>, depth: int, e: int): int
    requires 0 <= e < |buf|
  {
    if buf[e] == CloseBrace then depth - 1 else depth
  }

  /** After a line break, skipWhitespace reports a wrong indentation exactly
      when the number of leading tabs differs from the expected count; the
      line is otherwise unremarked, apart from tabs that run to the end. */
  lemma IndentChecked(path: string, buf: seq<byte>, st: PState, exp: Expectation, bol: int)
    requires 0 <= st.pos && st.pos + 1 < |buf|
    requires (buf[st.pos + 1] == LF && bol == st.pos + 2)
          || (buf[st.pos + 1] == CR && st.pos + 2 < |buf| && buf[st.pos + 2] == LF && bol == st.pos + 3)
    ensures var r := SkipWs(path, buf, st, exp);
      var e := TabsEnd(buf, bol);
      r.warnings == st.warnings +
        (if e == |buf| then (if e > bol then [OddWs(e, EOFAfterTab)] else [])
         else if e - bol != ExpectedTabs(buf, st.depth, e)
         then [OddWs(e, TabCountMismatch(ExpectedTabs(buf, st.depth, e), e - bol))]
         else [])
  {
  }

  /** plural never gives the same phrase for two different counts. */
  lemma PluralInjective(a: int, b: int, noun: string)
    requires Plural(a, noun) == Plural(b, noun)
    ensures a == b
  {
    assert (Plural(a, noun)[0] == 'o') == (a == 1) by {
      if a != 1 { assert Plural(a, noun)[0] == Itoa(a)[0]; }
    }
    assert (Plural(b, noun)[0] == 'o') == (b == 1) by {
      if b != 1 { assert Plural(b, noun)[0] == Itoa(b)[0]; }
    }
    if a != 1 {
      var p := Plural(a, noun);
      assert |Itoa(a)| == |Itoa(b)|;
      assert Itoa(a) == p[..|Itoa(a)|] == Itoa(b);
      ItoaInjective(a, b);
    }
  }

  /** So an indentation warning never reads "expected N tabs, found N tabs":
      the two phrases it quotes always differ. */
  lemma MismatchPhrasesDiffer(path: string, buf: seq<byte>, st: PState, exp: Expectation)
    requires 0 <= st.pos <= |buf|
    ensures var r := SkipWs(path, buf, st, exp);
      forall k :: |st.warnings| <= k < |r.warnings| && r.warnings[k].kind.TabCountMismatch? ==>
        Plural(r.warnings[k].kind.expected, "tab") != Plural(r.warnings[k].kind.found, "tab")
  {
    var r := SkipWs(path, buf, st, exp);
    forall k | |st.warnings| <= k < |r.warnings| && r.warnings[k].kind.TabCountMismatch?
      ensures Plural(r.warnings[k].kind.expected, "tab") != Plural(r.warnings[k].kind.found, "tab")
    {
      var kind := r.warnings[k].kind;
      var pos := st.pos + 1;
      assert pos < |buf| && (buf[pos] == LF || buf[pos] == CR);
      var bol := if buf[pos] == LF then pos + 1 else pos + 2;
      IndentChecked(path, buf, st, exp, bol);
      assert kind.expected != kind.found;
      if Plural(kind.expected, "tab") == Plural(kind.found, "tab") {
        PluralInjective(kind.expected, kind.found, "tab");
      }
    }
  }

  /*============================ Positions ============================*/

  /** utf8.RuneCount counts at least one rune per byte sequence and at most one per byte. */
  lemma {:induction false} RuneCountBounds(s: seq<byte>)
    ensures RuneCount(s) <= |s|
    ensures |s| > 0 ==> RuneCount(s) >= 1
    decreases |s|
  {
    if |s| > 0 {
      RuneCountBounds(s[DecodeRune(s).size..]);
    }
  }

  /** An ASCII byte never continues a multi-byte sequence, so appending one
      leaves the decoding of what came before unchanged. */
  lemma DecodeIgnoresAsciiTail(s: seq<byte>, b: byte)
    requires |s| > 0 && b < 0x80
    ensures DecodeRune(s + [b]).size == DecodeRune(s).size
  {
    var t := s + [b];
    assert t[0] == s[0];
    if |s| >= 2 { assert t[1] == s[1]; }
    if |s| >= 3 { assert t[2] == s[2]; }
    if |s| >= 4 { assert t[3] == s[3]; }
  }

  /** Each ASCII byte adds exactly one rune. */
  lemma {:induction false} RuneCountAppendAscii(s: seq<byte>, b: byte)
    requires b < 0x80
    ensures RuneCount(s + [b]) == RuneCount(s) + 1
    decreases |s|
  {
    if |s| > 0 {
      DecodeIgnoresAsciiTail(s, b);
      var n := DecodeRune(s).size;
      assert (s + [b])[n..] == s[n..] + [b];
      RuneCountAppendAscii(s[n..], b);
    } else {
      assert DecodeRune([b]).size == 1;
      assert [b][1..] == [];
    }
  }

  lemma CountNewlinesAppend(s: seq<byte>, b: byte)
    ensures CountNewlines(s + [b]) == CountNewlines(s) + (if b == LF then 1 else 0)
  {
    assert (s + [b])[..|s|] == s;
  }

  lemma LastNewlineAppend(s: seq<byte>, b: byte)
    ensures LastNewline(s + [b]) == if b == LF then |s| else LastNewline(s)
  {
    assert (s + [b])[..|s|] == s;
  }

  /** Line numbers: offset 0 is on line 1, and only a newline moves to the next line. */
  lemma LineSteps(buf: seq<byte>, pos: int)
    requires 0 <= pos < |buf|
    ensures LineAt(buf, 0) == 1
    ensures LineAt(buf, pos + 1) == LineAt(buf, pos) + (if buf[pos] == LF then 1 else 0)
  {
    assert buf[..0] == [];
    assert buf[..pos + 1] == buf[..pos] + [buf[pos]];
    CountNewlinesAppend(buf[..pos], buf[pos]);
  }

  /** Rune numbers: offset 0 is rune 1; after a newline the count starts again
      at 1; any other ASCII byte moves one rune to the right. */
  lemma RuneSteps(buf: seq<byte>, pos: int)
    requires 0 <= pos < |buf|
    ensures RuneAt(buf, 0) == 1
    ensures buf[pos] == LF ==> RuneAt(buf, pos + 1) == 1
    ensures buf[pos] != LF && buf[pos] < 0x80 ==> RuneAt(buf, pos + 1) == RuneAt(buf, pos) + 1
  {
    assert buf[..0] == [];
    assert buf[0..0] == [];
    assert buf[..pos + 1] == buf[..pos] + [buf[pos]];
    LastNewlineAppend(buf[..pos], buf[pos]);
    if buf[pos] == LF {
      assert LineStart(buf, pos + 1) == pos + 1;
      assert buf[pos + 1..pos + 1] == [];
    } else if buf[pos] < 0x80 {
      var start := LineStart(buf, pos);
      assert LineStart(buf, pos + 1) == start;
      assert buf[start..pos + 1] == buf[start..pos] + [buf[pos]];
      RuneCountAppendAscii(buf[start..pos], buf[pos]);
    }
  }

  /** parseError reports the offset it was given, on the line and at the rune
      that LineAt and RuneAt compute, and the rune number never exceeds the
      byte column. */
  lemma ErrorPosition(path: string, buf: seq<byte>, pos: int, d: Diagnostic)
    requires 0 <= pos <= |buf|
    ensures var e := ErrorAt(path, buf, pos, d);
      && e.fileOffset == pos && e.lineNumber == CountNewlines(buf[..pos]) + 1 && e.lineNumber >= 1
      && 1 <= e.runeNumber <= pos - LineStart(buf, pos) + 1
  {
    RuneCountBounds(buf[LineStart(buf, pos)..pos]);
  }

  /*========================== Name/value lists ==========================*/

  /** The list holds exactly the names of its members. */
  lemma {:induction false} ToMapKeys(ms: seq<Member>)
    ensures ToMap(ms).Keys == set m | m in ms :: m.0
  {
    if |ms| > 0 {
      ToMapKeys(ms[..|ms| - 1]);
      assert ms == ms[..|ms| - 1] + [ms[|ms| - 1]];
    }
  }

  /** A name that appears more than once keeps the value of its last appearance. */
  lemma {:induction false} LastWriteWins(ms: seq<Member>, i: int)
    requires 0 <= i < |ms|
    requires forall j :: i < j < |ms| ==> ms[j].0 != ms[i].0
    ensures ms[i].0 in ToMap(ms) && ToMap(ms)[ms[i].0] == ms[i].1
  {
    if i < |ms| - 1 {
      LastWriteWins(ms[..|ms| - 1], i);
    }
  }

  /** The errors of parseValue and of its member loop: a value that starts
      with neither a quote nor a brace; a list entry that is neither a name
      nor `}`; the end of the buffer inside a list, reported after the
      trailing whitespace; and the index panic of a value expected at the end. */
  lemma NodeErrors(path: string, buf: seq<byte>, st: PState, acc: seq<Member>)
    requires 0 <= st.pos <= |buf|
    ensures st.pos < |buf| && buf[st.pos] != Quote && buf[st.pos] != OpenBrace ==>
      ParseValueF(path, buf, st).0 == Err(Syntax(st.pos, ExpectedQuoteOrBrace))
    ensures st.pos >= |buf| ==> ParseValueF(path, buf, st).0 == Err(IndexPanic(st.pos))
    ensures st.pos < |buf| && buf[st.pos] != Quote && buf[st.pos] != CloseBrace ==>
      MembersF(path, buf, st, acc).0 == Err(Syntax(st.pos, ExpectedMemberOrClose))
    ensures st.pos >= |buf| ==>
      MembersF(path, buf, st, acc).0 == Err(Syntax(SkipWs(path, buf, st, ExpectNewline).pos, UnexpectedEOFInNVL))
  {
  }

  /** A document that parses leaves the indentation depth where it started.
      This is a count, not a matching of braces: see FinalBraceClosesAll. */
  lemma DocumentBalanced(path: string, buf: seq<byte>)
    ensures var r := ParseDocument(path, buf);
      r.0.Ok? ==> r.1.depth == 0 && 0 < r.1.pos <= |buf|
  {
  }

  /** A `}` that is the last byte of the file ends the member loop without
      moving the cursor, since skipWhitespace stops at the end of the buffer.
      The loop of the enclosing list then reads the same `}` again. */
  lemma LastBraceStays(path: string, buf: seq<byte>, st: PState, acc: seq<Member>)
    requires 0 <= st.pos && st.pos == |buf| - 1 && buf[st.pos] == CloseBrace
    ensures MembersF(path, buf, st, acc) == (Ok(acc), st.(depth := st.depth - 1))
  {
    MembersExits(path, buf, st, acc);
  }

  /** The file `"a"` LF `{` LF `"b"` TAB `{` LF `}`: two lists opened, one closed. */
  const FinalBraceFile: seq<byte> :=
    [Quote, 'a' as byte, Quote, LF, OpenBrace, LF, Quote, 'b' as byte, Quote, Tab, OpenBrace, LF, CloseBrace]

  /** As written, FinalBraceFile is accepted although it opens lists at offsets
      4 and 10 and closes one, at 12: its final `}` closes both lists. */
  lemma FinalBraceClosesAll(path: string)
    ensures forall k :: 0 <= k < |FinalBraceFile| ==>
      (FinalBraceFile[k] == OpenBrace <==> k == 4 || k == 10) &&
      (FinalBraceFile[k] == CloseBrace <==> k == 12)
    ensures ParseDocument(path, FinalBraceFile).0 == Ok(("a", Node(map["b" := Node(map[])])))
  {
    FinalBraceFileBraces();
    var name := ParseStringF(path, FinalBraceFile, PState(0, 0, []), ExpectTabs);
    TopNameRead(path);
    OuterListClosed(path, name.1);
  }

  lemma FinalBraceFileBraces()
    ensures forall k :: 0 <= k < |FinalBraceFile| ==>
      (FinalBraceFile[k] == OpenBrace <==> k == 4 || k == 10) &&
      (FinalBraceFile[k] == CloseBrace <==> k == 12)
  {
  }

  /** The top name "a", after which the cursor is on the `{` of the next line. */
  lemma TopNameRead(path: string)
    ensures var name := ParseStringF(path, FinalBraceFile, PState(0, 0, []), ExpectTabs);
      name.0 == Ok("a") && name.1.pos == 4 && name.1.depth == 0
  {
    var buf := FinalBraceFile;
    assert ScanString(buf, 2, ['a']) == Closed("a", 2);
    assert ScanString(buf, 1, []) == Closed("a", 2);
  }

  /** The outer list, opened at offset 4: its member "b" holds the inner list,
      and the `}` that closed that list closes this one too. */
  lemma OuterListClosed(path: string, st: PState)
    requires st.pos == 4 && st.depth == 0
    ensures ParseValueF(path, FinalBraceFile, st).0 == Ok(Node(map["b" := Node(map[])]))
  {
    var buf := FinalBraceFile;
    var outer := SkipWs(path, buf, st.(depth := 1), ExpectNewline);
    assert outer.pos == 6 && outer.depth == 1;
    assert ScanString(buf, 8, ['b']) == Closed("b", 8);
    assert ScanString(buf, 7, []) == Closed("b", 8);
    assert TabsEnd(buf, 9) == 10 && SpaceEnd(buf, 10) == 10;
    var member := ParseStringF(path, buf, outer, ExpectTabs);
    assert member.0 == Ok("b") && member.1.pos == 10 && member.1.depth == 1;
    var value := ParseValueF(path, buf, member.1);
    InnerListClosed(path, member.1);
    var acc: seq<Member> := [] + [(member.0.value, value.0.value)];
    assert acc == [("b", Node(map[]))];
    assert MemberF(path, buf, outer, []) == MembersF(path, buf, value.1, acc);
    LastBraceStays(path, buf, value.1, acc);
    var outerMs := MembersF(path, buf, outer, []);
    assert outerMs.0 == Ok(acc);
    NodeSteps(path, buf, st, outer, outerMs);
    assert ToMap(acc) == map["b" := Node(map[])];
  }

  /** The inner list, opened at offset 10: empty, and closed by the final `}`
      at offset 12, where the cursor stays. */
  lemma InnerListClosed(path: string, st: PState)
    requires st.pos == 10 && st.depth == 1
    ensures var v := ParseValueF(path, FinalBraceFile, st);
      v.0 == Ok(Node(map[])) && v.1.pos == 12 && v.1.depth == 1
  {
    var buf := FinalBraceFile;
    var inner := SkipWs(path, buf, st.(depth := 2), ExpectNewline);
    assert inner.pos == 12 && inner.depth == 2;
    LastBraceStays(path, buf, inner, []);
    NodeSteps(path, buf, st, inner, MembersF(path, buf, inner, []));
  }

  /*============================ The warning log ============================*/

  /** Every logged warning points into the buffer or just past its end. */
  ghost predicate LogInRange(ws: seq<OddWs>, n: int)
  {
    forall k :: 0 <= k < |ws| ==> 0 <= ws[k].offset <= n
  }

  lemma SkipWsLog(path: string, buf: seq<byte>, st: PState, exp: Expectation)
    requires 0 <= st.pos <= |buf| && LogInRange(st.warnings, |buf|)
    ensures LogInRange(SkipWs(path, buf, st, exp).warnings, |buf|)
  {
  }

  lemma StringLog(path: string, buf: seq<byte>, st: PState, exp: Expectation)
    requires 0 <= st.pos <= |buf| && LogInRange(st.warnings, |buf|)
    ensures LogInRange(ParseStringF(path, buf, st, exp).1.warnings, |buf|)
  {
    if st.pos < |buf| && buf[st.pos] == Quote {
      var sc := ScanString(buf, st.pos + 1, []);
      if sc.Closed? {
        SkipWsLog(path, buf, st.(pos := sc.closeAt), exp);
        assert ParseStringF(path, buf, st, exp).1 == SkipWs(path, buf, st.(pos := sc.closeAt), exp);
      } else {
        assert ParseStringF(path, buf, st, exp).1.warnings == st.warnings;
      }
    }
  }

  lemma {:induction false} ValueLog(path: string, buf: seq<byte>, st: PState)
    requires 0 <= st.pos <= |buf| && LogInRange(st.warnings, |buf|)
    ensures LogInRange(ParseValueF(path, buf, st).1.warnings, |buf|)
    decreases |buf| - st.pos, 3
  {
    if st.pos < |buf| {
      if buf[st.pos] == Quote {
        StringLog(path, buf, st, ExpectNewline);
      } else if buf[st.pos] == OpenBrace {
        NodeLog(path, buf, st);
      }
    }
  }

  lemma {:induction false} NodeLog(path: string, buf: seq<byte>, st: PState)
    requires 0 <= st.pos < |buf| && buf[st.pos] == OpenBrace && LogInRange(st.warnings, |buf|)
    ensures LogInRange(NodeF(path, buf, st).1.warnings, |buf|)
    decreases |buf| - st.pos, 2
  {
    var st1 := SkipWs(path, buf, st.(depth := st.depth + 1), ExpectNewline);
    SkipWsLog(path, buf, st.(depth := st.depth + 1), ExpectNewline);
    MembersLog(path, buf, st1, []);
    NodeSteps(path, buf, st, st1, MembersF(path, buf, st1, []));
  }

  lemma {:induction false} MembersLog(path: string, buf: seq<byte>, st: PState, acc: seq<Member>)
    requires 0 <= st.pos <= |buf| && LogInRange(st.warnings, |buf|)
    ensures LogInRange(MembersF(path, buf, st, acc).1.warnings, |buf|)
    decreases |buf| - st.pos, 1
  {
    if st.pos >= |buf| {
      SkipWsLog(path, buf, st, ExpectNewline);
    } else if buf[st.pos] == Quote {
      MemberLog(path, buf, st, acc);
    } else if buf[st.pos] == CloseBrace {
      SkipWsLog(path, buf, st.(depth := st.depth - 1), ExpectNewline);
    }
  }

  lemma {:induction false} MemberLog(path: string, buf: seq<byte>, st: PState, acc: seq<Member>)
    requires 0 <= st.pos < |buf| && buf[st.pos] == Quote && LogInRange(st.warnings, |buf|)
    ensures LogInRange(MemberF(path, buf, st, acc).1.warnings, |buf|)
    decreases |buf| - st.pos, 0
  {
    var name := ParseStringF(path, buf, st, ExpectTabs);
    StringLog(path, buf, st, ExpectTabs);
    if name.0.Ok? {
      var value := ParseValueF(path, buf, name.1);
      ValueLog(path, buf, name.1);
      if value.0.Ok? {
        MembersLog(path, buf, value.1, acc + [(name.0.value, value.0.value)]);
      }
    }
  }

  /** Every warning parseSimpleVDF logs lies within the file. */
  lemma DocumentLog(path: string, buf: seq<byte>)
    ensures LogInRange(ParseSimpleVdfF(path, buf).1, |buf|)
  {
    var st := PState(0, 0, []);
    StringLog(path, buf, st, ExpectTabs);
    var name := ParseStringF(path, buf, st, ExpectTabs);
    if name.0.Ok? {
      ValueLog(path, buf, name.1);
    }
  }

  /** The lines warnOddWS writes to standard error while parseSimpleVDF reads
      `buf`, one per logged warning, in order. */
  function WarningLines(path: string, buf: seq<byte>): (lines: seq<Warning>)
    ensures var log := ParseSimpleVdfF(path, buf).1;
      |lines| == |log|
      && forall k :: 0 <= k < |lines| ==>
           lines[k].offset == log[k].offset && 0 <= log[k].offset <= |buf|
           && lines[k].lineNumber == CountNewlines(buf[..log[k].offset]) + 1
  {
    var log := ParseSimpleVdfF(path, buf).1;
    DocumentLog(path, buf);
    seq(|log|, k requires 0 <= k < |log| => Rendered(path, buf, log[k]))
  }
}
