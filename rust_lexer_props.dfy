/** Properties of the Rust lexer functions: end of input, `peek`, newlines,
    comments, strings, identifiers, symbols and numbers. */
module RustLexerProps {
  import opened Wrappers
  import opened Ints
  import opened Chars
  import opened RustToken
  import opened Escapes
  import opened RustLexerSpec

  // ---------------------------------------------------------------- end and peek

  /** Once `ch` is `'\0'`, `next` returns `eof()` and leaves the cursor
      where it is, so every later call returns `eof()` again. */
  lemma NextAtEnd(s: string, filename: string, c: Cursor)
    requires ValidCursor(s, c) && !CanAdvance(c)
    ensures Next(s, filename, c) == (Ok(Eof()), c)
  {
  }

  /** No collector yields an `EndOfFile` token: `next` returns one only at
      the end of the text, and the cursor then stays there. */
  lemma {:induction false} EofOnlyAtEnd(s: string, filename: string, c: Cursor)
    requires ValidCursor(s, c)
    requires Next(s, filename, c).0.Ok? && Next(s, filename, c).0.token.tokenType == EndOfFile
    ensures !CanAdvance(Next(s, filename, c).1)
    ensures Next(s, filename, Next(s, filename, c).1) == Next(s, filename, c)
    decreases |s| - c.position
  {
    var c1 := SkipComments(s, SkipWhitespace(s, c));
    if CanAdvance(c1) && !(c1.ch == '"' || c1.ch == '\'')
       && !(IsDigit(c1.ch) || (c1.ch == '.' && IsDigit(PeekChar(s, c1, 1))))
       && !(IsAlpha(c1.ch) || c1.ch == '_') && IsSymbol(c1.ch) {
      var c2 := SkipComments(s, c1);
      if IsStartOfComment(s, c2) || !IsSymbol(c2.ch) {
        EofOnlyAtEnd(s, filename, c2);
      } else {
        var c3 := Advance(s, c2);
        SymbolTableHasNoEof([c2.ch]);
        SymbolTableHasNoEof([c2.ch] + [c3.ch]);
      }
    }
  }

  /** `peek` returns exactly what `next` returns and, unless `next` panics,
      leaves the cursor where it was. */
  lemma PeekAgreesWithNext(s: string, filename: string, c: Cursor)
    requires ValidCursor(s, c)
    ensures Peek(s, filename, c).0 == Next(s, filename, c).0
    ensures !Next(s, filename, c).0.Panic? ==> Peek(s, filename, c).1 == c
  {
  }

  /** The operator table never yields `EndOfFile`. */
  lemma SymbolTableHasNoEof(k: string)
    ensures FindSymbolType(k) != EndOfFile
  {
  }

  // ---------------------------------------------------------------- newlines

  /** A lone `'\n'` yields `NewLine` but advances twice, so the character
      after it is consumed too; the token carries the line and column after
      both steps. */
  lemma LoneNewlineSwallowsNextChar(s: string, filename: string, c: Cursor)
    requires ValidCursor(s, c) && c.ch == '\n'
    requires CharAt(s, c.position + 1) != '\0' && CharAt(s, c.position + 1) != '\n'
    ensures var (o, d) := Next(s, filename, c);
            d.position == c.position + 2 && d.line == c.line + 1 && d.column == 1
            && o == Ok(NewToken(NewLine, "", d.line, d.column))
  {
    assert SkipComments(s, SkipWhitespace(s, c)) == c;
    var d := Advance(s, Advance(s, c));
    assert OtherPass(s, filename, c) == Emit(Ok(NewToken(NewLine, "", d.line, d.column)), d);
  }

  /** `"\r\n"` yields one `NewLine`, stamped at the start of the next line
      (column 0). */
  lemma CrLfIsOneNewline(s: string, filename: string, c: Cursor)
    requires ValidCursor(s, c) && c.ch == '\r' && CharAt(s, c.position + 1) == '\n'
    ensures var (o, d) := Next(s, filename, c);
            d.position == c.position + 2 && d.line == c.line + 1 && d.column == 0
            && o == Ok(NewToken(NewLine, "", c.line + 1, 0))
  {
    assert SkipComments(s, SkipWhitespace(s, c)) == c;
    var d := Advance(s, Advance(s, c));
    assert OtherPass(s, filename, c) == Emit(Ok(NewToken(NewLine, "", d.line, d.column)), d);
  }

  // ---------------------------------------------------------------- comments

  /** `skip_until_char` stops at the first occurrence of `x`; when `x` is a
      newline the line count is unchanged. */
  lemma {:induction false} SkipUntilCharFinds(s: string, c: Cursor, x: char, k: nat)
    requires ValidCursor(s, c) && x != '\0'
    requires c.position + k < |s| && s[c.position + k] == x
    requires forall i :: c.position <= i < c.position + k ==> s[i] != x && s[i] != '\0'
    ensures SkipUntilChar(s, c, x).position == c.position + k
    ensures x == '\n' ==> SkipUntilChar(s, c, x).line == c.line
    decreases k
  {
    if k > 0 {
      SkipUntilCharFinds(s, Advance(s, c), x, k - 1);
    }
  }

  /** `skip_until_string` stops at the first place the pattern starts. */
  lemma {:induction false} SkipUntilStringFinds(s: string, c: Cursor, pattern: string, k: nat)
    requires ValidCursor(s, c)
    requires c.position + k < |s| && s[c.position + k] != '\0' && StartsAt(s, c.position + k, pattern)
    requires forall i :: c.position <= i < c.position + k ==> !StartsAt(s, i, pattern) && s[i] != '\0'
    ensures SkipUntilString(s, c, pattern).position == c.position + k
    decreases k
  {
    if k > 0 {
      SkipUntilStringFinds(s, Advance(s, c), pattern, k - 1);
    }
  }

  /** A line comment is skipped through its newline, so that newline yields
      no `NewLine` token; the cursor is at column 0 of the next line. */
  lemma LineCommentSkipped(s: string, c: Cursor, body: string)
    requires ValidCursor(s, c)
    requires c.position + 2 + |body| < |s|
    requires s[c.position..c.position + 2] == "//"
    requires s[c.position + 2..c.position + 2 + |body|] == body
    requires s[c.position + 2 + |body|] == '\n'
    requires forall i :: 0 <= i < |body| ==> body[i] != '\n' && body[i] != '\0'
    ensures var d := SkipComments(s, c);
            d.position == c.position + 3 + |body| && d.line == c.line + 1 && d.column == 0
  {
    var p := c.position;
    assert s[p] == '/' && s[p + 1] == '/';
    forall i | p <= i < p + 2 + |body| ensures s[i] != '\n' && s[i] != '\0' {
      if i >= p + 2 {
        assert s[i] == body[i - p - 2];
      }
    }
    SkipUntilCharFinds(s, c, '\n', 2 + |body|);
  }

  /** A block comment is skipped through its first closing marker, found
      `k` characters after the opening `/`. */
  lemma BlockCommentSkipped(s: string, c: Cursor, k: nat)
    requires ValidCursor(s, c)
    requires 2 <= k && c.position + k + 2 <= |s|
    requires s[c.position] == '/' && s[c.position + 1] == '*'
    requires s[c.position + k] == '*' && s[c.position + k + 1] == '/'
    requires forall i :: c.position <= i < c.position + k ==> s[i] != '\0' && !StartsAt(s, i, "*/")
    ensures SkipComments(s, c).position == c.position + k + 2
  {
    StartsAtPair(s, c.position + k, '*', '/');
    SkipUntilStringFinds(s, c, "*/", k);
    var d := SkipUntilString(s, c, "*/");
    assert d.ch == '*' && Advance(s, d).ch == '/';
    assert PeekChar(s, c, 1) == '*';
  }

  /** The search for the closing marker starts on the opening `/`, so the
      `*` of the opening marker can close the comment: slash, star, slash
      is a whole comment. */
  lemma OpeningStarCanClose(s: string, c: Cursor)
    requires ValidCursor(s, c)
    requires c.position + 3 <= |s| && s[c.position] == '/' && s[c.position + 1] == '*' && s[c.position + 2] == '/'
    ensures SkipComments(s, c).position == c.position + 3
  {
    StartsAtPair(s, c.position, '*', '/');
    StartsAtPair(s, c.position + 1, '*', '/');
    SkipUntilStringFinds(s, c, "*/", 1);
  }

  // ---------------------------------------------------------------- strings

  /** One escaped character: the loop decodes it and moves two places on. */
  lemma EscapedCharStep(s: string, c: Cursor, q: char, acc: string, x: char)
    requires ValidCursor(s, c) && IsQuote(q) && (x == '\\' || x == q)
    requires c.position + 1 < |s| && s[c.position] == '\\' && s[c.position + 1] == x
    ensures var c2 := Advance(s, Advance(s, c));
            c2.position == c.position + 2 && StringBody(s, c, q, acc) == StringBody(s, c2, q, acc + [x])
  {
    assert Unescape(x) == Some(x);
  }

  /** One plain character: the loop keeps it and moves one place on. */
  lemma PlainCharStep(s: string, c: Cursor, q: char, acc: string, x: char)
    requires ValidCursor(s, c) && x != '\\' && x != q && x != '\0'
    requires c.position < |s| && s[c.position] == x
    ensures Advance(s, c).position == c.position + 1
    ensures StringBody(s, c, q, acc) == StringBody(s, Advance(s, c), q, acc + [x])
  {
  }

  /** The loop of `collect_string` decodes an escaped text back to the text
      and stops on the closing quote. */
  lemma {:induction false} StringBodyOfEscaped(s: string, c: Cursor, q: char, acc: string, v: string)
    requires ValidCursor(s, c) && IsQuote(q) && NoNul(v)
    requires Occurs(s, c.position, Escape(v, q) + [q])
    ensures StringBody(s, c, q, acc) == Scanned(acc + v, StringBody(s, c, q, acc).at)
    ensures StringBody(s, c, q, acc).at.position == c.position + |Escape(v, q)|
    decreases |v|
  {
    if v == [] {
      assert s[c.position] == ([] + [q])[0];
    } else {
      var x := v[0];
      EscapeSplit(s, c.position, q, v);
      if x == '\\' || x == q {
        EscapedCharStep(s, c, q, acc, x);
        StringBodyOfEscaped(s, Advance(s, Advance(s, c)), q, acc + [x], v[1..]);
      } else {
        PlainCharStep(s, c, q, acc, x);
        StringBodyOfEscaped(s, Advance(s, c), q, acc + [x], v[1..]);
      }
      assert acc + [x] + v[1..] == acc + v;
    }
  }

  /** `collect_string` once its loop has stopped on the closing quote. */
  lemma CollectStringClosed(s: string, c: Cursor, text: string, at: Cursor)
    requires ValidCursor(s, c) && CanAdvance(c)
    requires StringBody(s, Advance(s, c), QuoteOf(c), "") == Scanned(text, at)
    requires ValidCursor(s, at) && at.ch == QuoteOf(c)
    ensures CollectString(s, c) == (Ok(NewToken(STRING, text, c.line, c.column)), Advance(s, at))
  {
  }

  /** Round trip: a quote, the escaped text and the same quote again lex to
      a `STRING` token holding the text, and the cursor ends just past the
      closing quote. The other quote character needs no escape. */
  lemma StringRoundTrip(s: string, c: Cursor, v: string)
    requires ValidCursor(s, c) && IsQuote(c.ch) && NoNul(v)
    requires Occurs(s, c.position + 1, Escape(v, c.ch) + [c.ch])
    ensures CollectString(s, c).0 == Ok(NewToken(STRING, v, c.line, c.column))
    ensures CollectString(s, c).1.position == c.position + 2 + |Escape(v, c.ch)|
  {
    var e := Escape(v, c.ch);
    assert QuoteOf(c) == c.ch;
    assert s[c.position + 1 + |e|] == (e + [c.ch])[|e|];
    StringBodyOfEscaped(s, Advance(s, c), c.ch, "", v);
    assert "" + v == v;
    CollectStringClosed(s, c, v, StringBody(s, Advance(s, c), c.ch, "").at);
  }

  /** Without the closing quote, a backslash or a NUL, the loop runs to the
      end of the text, collecting it unchanged. */
  lemma {:induction false} StringBodyToEnd(s: string, c: Cursor, q: char, acc: string)
    requires ValidCursor(s, c)
    requires forall i :: c.position <= i < |s| ==> s[i] != q && s[i] != '\\' && s[i] != '\0'
    ensures StringBody(s, c, q, acc) == Scanned(acc + s[c.position..], StringBody(s, c, q, acc).at)
    ensures StringBody(s, c, q, acc).at.position == |s|
    decreases |s| - c.position
  {
    if c.position < |s| {
      StringBodyToEnd(s, Advance(s, c), q, acc + [c.ch]);
      assert acc + [c.ch] + s[c.position + 1..] == acc + s[c.position..];
    }
  }

  /** A literal whose closing quote never comes is an `UnterminatedString`
      error carrying everything after the opening quote. */
  lemma UnterminatedStringError(s: string, c: Cursor)
    requires ValidCursor(s, c) && IsQuote(c.ch)
    requires forall i :: c.position < i < |s| ==> s[i] != c.ch && s[i] != '\\' && s[i] != '\0'
    ensures CollectString(s, c).0 == Err(UnterminatedString(s[c.position + 1..]))
  {
    var c1 := Advance(s, c);
    StringBodyToEnd(s, c1, c.ch, "");
    assert "" + s[c1.position..] == s[c.position + 1..];
    assert StringBody(s, c1, c.ch, "").at.ch == '\0';
  }

  /** A backslash followed by a character outside the escape table panics. */
  lemma InvalidEscapePanics(s: string, c: Cursor)
    requires ValidCursor(s, c) && IsQuote(c.ch)
    requires c.position + 2 < |s| && s[c.position + 1] == '\\'
    requires s[c.position + 2] != '\0' && Unescape(s[c.position + 2]).None?
    ensures CollectString(s, c).0.Panic?
  {
  }

  // ---------------------------------------------------------------- identifiers and symbols

  /** The identifier loop consumes the longest run of identifier characters. */
  lemma {:induction false} IdentRunIsMaximal(s: string, c: Cursor, acc: string)
    requires ValidCursor(s, c)
    ensures var (t, d) := IdentRun(s, c, acc);
            t == acc + s[c.position..d.position]
            && (forall i :: c.position <= i < d.position ==> IsIdentChar(s[i]))
            && !IsIdentChar(d.ch)
    decreases |s| - c.position
  {
    if CanAdvance(c) && IsIdentChar(c.ch) {
      IdentRunIsMaximal(s, Advance(s, c), acc + [c.ch]);
      var d := IdentRun(s, c, acc).1;
      assert acc + [c.ch] + s[c.position + 1..d.position] == acc + s[c.position..d.position];
    }
  }

  /** `collect_identifier` yields the maximal run of `[alnum _]` at the
      cursor; the token is `KEYWORD` with the keyword's kind exactly when the
      run is one of the reserved words, and `ID` with `Unknown` otherwise. */
  lemma CollectIdentifierSound(s: string, c: Cursor)
    requires ValidCursor(s, c)
    ensures var (o, d) := CollectIdentifier(s, c);
            o.Ok? && o.token.value == s[c.position..d.position]
            && (forall i :: c.position <= i < d.position ==> IsIdentChar(s[i]))
            && !IsIdentChar(d.ch)
            && o.token.keywordType == FindKeywordType(o.token.value)
            && (o.token.tokenType == KEYWORD <==> FindKeywordType(o.token.value) != KeywordType.Unknown)
            && (o.token.tokenType == ID <==> FindKeywordType(o.token.value) == KeywordType.Unknown)
            && o.token.line == c.line && o.token.column == c.column
  {
    IdentRunIsMaximal(s, c, "");
    var d := IdentRun(s, c, "").1;
    assert "" + s[c.position..d.position] == s[c.position..d.position];
  }

  /** Every reserved word is made of identifier characters and starts with a
      letter, so `next` reaches `collect_identifier` for it. */
  lemma KeywordsAreIdentifiers(k: string)
    requires FindKeywordType(k) != KeywordType.Unknown
    ensures k != [] && IsAlpha(k[0])
    ensures forall i :: 0 <= i < |k| ==> IsIdentChar(k[i])
  {
  }

  /** `collect_symbol` takes the longest table key at the cursor: two
      characters when they form a key, else the single symbol character. */
  lemma CollectSymbolLongestMatch(s: string, c: Cursor)
    requires ValidCursor(s, c) && IsSymbol(c.ch)
    ensures var (o, d) := CollectSymbol(s, c);
            o.Ok? && o.token.value == s[c.position..d.position]
            && IsSymbolKey(o.token.value) && o.token.tokenType == FindSymbolType(o.token.value)
            && (d.position == c.position + 2 <==> c.position + 2 <= |s| && IsSymbolKey(s[c.position..c.position + 2]))
            && (d.position == c.position + 1 || d.position == c.position + 2)
  {
    var p := c.position;
    SymbolCharsAreKeys(c.ch);
    var c1 := Advance(s, c);
    assert s[p..p + 1] == [c.ch];
    if p + 2 <= |s| {
      assert s[p..p + 2] == [c.ch] + [c1.ch];
      if IsSymbolKey(s[p..p + 2]) {
        SymbolKeyShapes(s[p..p + 2]);
        assert IsSymbol(c1.ch);
      }
    }
  }

  // ---------------------------------------------------------------- numbers

  /** Base 10 digit values agree with the decimal reading. */
  lemma {:induction false} DigitsValueDecimal(t: string)
    requires forall i :: 0 <= i < |t| ==> IsDigit(t[i])
    ensures AllRadixDigits(t, 10) && DigitsValue(t, 10) == DecimalValue(t)
  {
    if t != [] {
      DigitsValueDecimal(t[..|t| - 1]);
    }
  }

  /** Only the number zero is written with a leading `'0'`. */
  lemma {:induction false} LeadingZeroOnlyForZero(n: nat)
    ensures NatToDecimal(n)[0] == '0' <==> n == 0
  {
    if n >= 10 {
      LeadingZeroOnlyForZero(n / 10);
      assert NatToDecimal(n)[0] == NatToDecimal(n / 10)[0];
    }
  }

  /** The number loop stops on a character it does not accept. */
  lemma DigitRunStops(s: string, c: Cursor, radix: Radix, acc: string, dot: bool)
    requires ValidCursor(s, c) && !Accepts(radix, c.ch)
    ensures DigitRun(s, c, radix, acc, dot) == (acc, dot, c)
  {
  }

  /** The main number loop over a run `t` of accepted characters other
      than `'.'` that lies at the cursor. */
  lemma {:induction false} DigitRunOver(s: string, c: Cursor, radix: Radix, acc: string, dot: bool, t: string)
    requires ValidCursor(s, c) && Occurs(s, c.position, t)
    requires forall i :: 0 <= i < |t| ==> Accepts(radix, t[i]) && t[i] != '.'
    ensures DigitRun(s, c, radix, acc, dot)
            == DigitRun(s, Cursor(c.position + |t|, c.line, c.column + |t|, CharAt(s, c.position + |t|)), radix, acc + t, dot)
    decreases |t|
  {
    if t == [] {
      assert acc + t == acc;
    } else {
      assert c.ch == s[c.position + 0] == t[0];
      assert Accepts(radix, t[0]) && t[0] != '.';
      var c1 := Advance(s, c);
      forall i | 0 <= i < |t[1..]| ensures s[c1.position + i] == t[1..][i] {
        assert s[c.position + (i + 1)] == t[i + 1];
      }
      DigitRunOver(s, c1, radix, acc + [t[0]], dot, t[1..]);
      assert acc + [t[0]] + t[1..] == acc + t;
    }
  }

  /** `collect_number` once its loop has ended without a point: the digits
      are parsed in the radix, and an empty text or a value beyond `i64`
      panics in the `unwrap`. */
  lemma CollectNumberInt(s: string, c: Cursor, radix: Radix, t0: string, c1: Cursor, t: string, c2: Cursor)
    requires ValidCursor(s, c) && NumberPrefix(s, c) == (radix, t0, c1)
    requires ValidCursor(s, c1) && DigitRun(s, c1, radix, t0, false) == (t, false, c2)
    requires AllRadixDigits(t, RadixBase(radix))
    ensures CollectNumber(s, c).1 == c2
    ensures t != [] && DigitsValue(t, RadixBase(radix)) <= I64_MAX ==>
              CollectNumber(s, c).0 == Ok(NewToken(INT, t, c.line, c.column).(intValue := DigitsValue(t, RadixBase(radix))))
    ensures !(t != [] && DigitsValue(t, RadixBase(radix)) <= I64_MAX) ==> CollectNumber(s, c).0.Panic?
  {
    var r := ParseI64(t, RadixBase(radix));
  }

  /** `collect_number` once its loop has ended on a point: the fraction
      loop finishes a `FLOAT` token. */
  lemma CollectNumberFloat(s: string, c: Cursor, radix: Radix, t0: string, c1: Cursor, t1: string, c2: Cursor)
    requires ValidCursor(s, c) && NumberPrefix(s, c) == (radix, t0, c1)
    requires ValidCursor(s, c1) && DigitRun(s, c1, radix, t0, false) == (t1, true, c2)
    requires ValidCursor(s, c2)
    ensures CollectNumber(s, c) == (Ok(NewToken(FLOAT, FractionRun(s, c2, t1).0, c.line, c.column)), FractionRun(s, c2, t1).1)
  {
  }

  /** `collect_number` on digits without a prefix or a point, the first of
      them not `'0'`: the digits are the text and their value the payload. */
  lemma PlainDecimal(s: string, c: Cursor, t: string)
    requires ValidCursor(s, c) && Occurs(s, c.position, t) && t != [] && t[0] != '0'
    requires forall i :: 0 <= i < |t| ==> IsDigit(t[i])
    requires var e := CharAt(s, c.position + |t|); !IsDigit(e) && e != '.'
    ensures var (o, d) := CollectNumber(s, c);
            d.position == c.position + |t|
            && (DecimalValue(t) <= I64_MAX ==> o == Ok(NewToken(INT, t, c.line, c.column).(intValue := DecimalValue(t))))
            && (DecimalValue(t) > I64_MAX ==> o.Panic?)
  {
    assert NumberPrefix(s, c) == (Dec, "", c) by {
      assert c.ch == s[c.position + 0] == t[0];
    }
    var e := Cursor(c.position + |t|, c.line, c.column + |t|, CharAt(s, c.position + |t|));
    DigitRunOver(s, c, Dec, "", false, t);
    assert "" + t == t;
    DigitRunStops(s, e, Dec, t, false);
    DigitsValueDecimal(t);
    CollectNumberInt(s, c, Dec, "", c, t, e);
  }

  /** `collect_number` on a lone `0`. */
  lemma LoneZero(s: string, c: Cursor)
    requires ValidCursor(s, c) && c.ch == '0'
    requires var e := CharAt(s, c.position + 1); !IsAlnum(e) && e != '.'
    ensures var (o, d) := CollectNumber(s, c);
            d.position == c.position + 1 && o == Ok(NewToken(INT, "0", c.line, c.column))
  {
    var c1 := Advance(s, c);
    assert NumberPrefix(s, c) == (Dec, "0", c1);
    DigitRunStops(s, c1, Dec, "0", false);
    assert DigitsValue("0", 10) == 0;
  }

  /** Round trip: the decimal rendering of `n`, followed by a character that
      is neither alphanumeric nor `'.'`, lexes to an `INT` token with value
      `n` when `n` fits in an `i64`, and panics in the `unwrap` otherwise. */
  lemma DecimalNumberRoundTrip(s: string, c: Cursor, n: nat)
    requires ValidCursor(s, c) && Occurs(s, c.position, NatToDecimal(n))
    requires var e := CharAt(s, c.position + |NatToDecimal(n)|); !IsAlnum(e) && e != '.'
    ensures var (o, d) := CollectNumber(s, c);
            d.position == c.position + |NatToDecimal(n)|
            && (n <= I64_MAX ==> o == Ok(NewToken(INT, NatToDecimal(n), c.line, c.column).(intValue := n)))
            && (n > I64_MAX ==> o.Panic?)
  {
    var t := NatToDecimal(n);
    LeadingZeroOnlyForZero(n);
    if n == 0 {
      assert t == "0";
      LoneZero(s, c);
    } else {
      DecimalRoundTrip(n);
      PlainDecimal(s, c, t);
    }
  }

  /** The radix a `0x`, `0b` or `0o` prefix selects. */
  function PrefixRadix(x: char): Radix {
    if x == 'x' then Hex else if x == 'b' then Bin else Oct
  }

  /** The prefix step on `0x`, `0b` or `0o`: two characters consumed, radix chosen. */
  lemma RadixPrefix(s: string, c: Cursor, x: char)
    requires ValidCursor(s, c) && c.ch == '0' && (x == 'x' || x == 'b' || x == 'o')
    requires CharAt(s, c.position + 1) == x
    ensures NumberPrefix(s, c)
            == (PrefixRadix(x), "", Cursor(c.position + 2, c.line, c.column + 2, CharAt(s, c.position + 2)))
  {
  }

  /** The main number loop over the digits after a radix prefix. */
  lemma RadixDigitRun(s: string, c: Cursor, radix: Radix, t: string)
    requires ValidCursor(s, c) && radix != Dec && Occurs(s, c.position, t)
    requires AllRadixDigits(t, RadixBase(radix))
    requires !IsRadixDigit(CharAt(s, c.position + |t|), RadixBase(radix))
    ensures DigitRun(s, c, radix, "", false)
            == (t, false, Cursor(c.position + |t|, c.line, c.column + |t|, CharAt(s, c.position + |t|)))
  {
    forall i | 0 <= i < |t| ensures Accepts(radix, t[i]) && t[i] != '.' {
      assert IsRadixDigit(t[i], RadixBase(radix));
    }
    DigitRunOver(s, c, radix, "", false, t);
    assert "" + t == t;
    DigitRunStops(s, Cursor(c.position + |t|, c.line, c.column + |t|, CharAt(s, c.position + |t|)), radix, t, false);
  }

  /** `0x`, `0b` and `0o` numbers: the prefix is dropped from the text, the
      digits are read in base 16, 2 or 8, and an empty digit string or a
      value beyond `i64` panics in the `unwrap`. */
  lemma RadixNumber(s: string, c: Cursor, x: char, t: string)
    requires ValidCursor(s, c) && c.ch == '0' && (x == 'x' || x == 'b' || x == 'o')
    requires CharAt(s, c.position + 1) == x && Occurs(s, c.position + 2, t)
    requires AllRadixDigits(t, RadixBase(PrefixRadix(x)))
    requires !IsRadixDigit(CharAt(s, c.position + 2 + |t|), RadixBase(PrefixRadix(x)))
    ensures var (o, d) := CollectNumber(s, c);
            d.position == c.position + 2 + |t|
            && (t == [] ==> o.Panic?)
            && (t != [] && DigitsValue(t, RadixBase(PrefixRadix(x))) <= I64_MAX ==>
                  o == Ok(NewToken(INT, t, c.line, c.column).(intValue := DigitsValue(t, RadixBase(PrefixRadix(x))))))
            && (t != [] && DigitsValue(t, RadixBase(PrefixRadix(x))) > I64_MAX ==> o.Panic?)
  {
    var c2 := Cursor(c.position + 2, c.line, c.column + 2, CharAt(s, c.position + 2));
    var e := Cursor(c.position + 2 + |t|, c.line, c.column + 2 + |t|, CharAt(s, c.position + 2 + |t|));
    RadixPrefix(s, c, x);
    RadixDigitRun(s, c2, PrefixRadix(x), t);
    CollectNumberInt(s, c, PrefixRadix(x), "", c2, t, e);
  }

  /** The text a float literal with integer digits `a` keeps: a leading
      point gets a `"0"` in front. */
  function FloatText(a: string, b: string): string {
    (if a == [] then "0" else a) + "." + b
  }

  /** The integer digits of a float literal that begin with `0`: the prefix
      step keeps that `0` and the loop takes the rest. */
  lemma FloatZeroLead(s: string, c: Cursor, a: string)
    requires ValidCursor(s, c) && Occurs(s, c.position, a) && |a| >= 1 && a[0] == '0'
    requires forall i :: 0 <= i < |a| ==> IsDigit(a[i])
    requires CharAt(s, c.position + |a|) == '.'
    ensures var pre := NumberPrefix(s, c);
            pre.0 == Dec
            && DigitRun(s, pre.2, Dec, pre.1, false)
               == DigitRun(s, Cursor(c.position + |a|, c.line, c.column + |a|, '.'), Dec, a, false)
  {
    var p := c.position;
    var c1 := Advance(s, c);
    assert s[p + 0] == a[0];
    assert c1.ch == '.' || IsDigit(c1.ch) by {
      if |a| > 1 { assert s[p + 1] == a[1]; }
    }
    assert NumberPrefix(s, c) == (Dec, "0", c1);
    var a1 := a[1..];
    assert Occurs(s, p + 1, a1) by {
      forall i | 0 <= i < |a1| ensures s[p + 1 + i] == a1[i] {
        assert s[p + (1 + i)] == a[1 + i];
      }
    }
    forall i | 0 <= i < |a1| ensures Accepts(Dec, a1[i]) && a1[i] != '.' {
      assert a1[i] == a[i + 1];
      assert IsDigit(a[i + 1]);
    }
    DigitRunOver(s, c1, Dec, "0", false, a1);
    assert "0" + a1 == a;
  }

  /** The integer digits of a float literal that do not begin with `0`. */
  lemma FloatPlainLead(s: string, c: Cursor, a: string)
    requires ValidCursor(s, c) && Occurs(s, c.position, a) && |a| >= 1 && a[0] != '0'
    requires forall i :: 0 <= i < |a| ==> IsDigit(a[i])
    requires CharAt(s, c.position + |a|) == '.'
    ensures var pre := NumberPrefix(s, c);
            pre.0 == Dec
            && DigitRun(s, pre.2, Dec, pre.1, false)
               == DigitRun(s, Cursor(c.position + |a|, c.line, c.column + |a|, '.'), Dec, a, false)
  {
    var p := c.position;
    assert s[p + 0] == a[0];
    assert NumberPrefix(s, c) == (Dec, "", c);
    forall i | 0 <= i < |a| ensures Accepts(Dec, a[i]) && a[i] != '.' {
      assert IsDigit(a[i]);
    }
    DigitRunOver(s, c, Dec, "", false, a);
    assert "" + a == a;
  }

  /** From the point of a float literal: the point and the digits after it
      are pushed, and both loops stop at the first non-digit. */
  lemma FloatFraction(s: string, pt: Cursor, A: string, b: string)
    requires ValidCursor(s, pt) && pt.ch == '.' && Occurs(s, pt.position + 1, b)
    requires forall i :: 0 <= i < |b| ==> IsDigit(b[i])
    requires !IsDigit(CharAt(s, pt.position + 1 + |b|))
    ensures var e := Cursor(pt.position + 1 + |b|, pt.line, pt.column + 1 + |b|, CharAt(s, pt.position + 1 + |b|));
            var r := DigitRun(s, pt, Dec, A, false);
            r == (A + "." + b, true, e) && FractionRun(s, r.2, r.0) == (A + "." + b, e)
  {
    var q := pt.position;
    var c3 := Cursor(q + 1, pt.line, pt.column + 1, CharAt(s, q + 1));
    assert DigitRun(s, pt, Dec, A, false) == DigitRun(s, c3, Dec, A + ".", true);
    forall i | 0 <= i < |b| ensures Accepts(Dec, b[i]) && b[i] != '.' {
      assert IsDigit(b[i]);
    }
    DigitRunOver(s, c3, Dec, A + ".", true, b);
    var e := Cursor(q + 1 + |b|, pt.line, pt.column + 1 + |b|, CharAt(s, q + 1 + |b|));
    assert DigitRun(s, e, Dec, A + "." + b, true) == (A + "." + b, true, e);
    assert FractionRun(s, e, A + "." + b) == (A + "." + b, e);
  }

  /** The pieces of an occurrence of `a + "." + b`. */
  lemma FloatPieces(s: string, p: nat, a: string, b: string)
    requires Occurs(s, p, a + "." + b)
    ensures Occurs(s, p, a) && s[p + |a|] == '.' && Occurs(s, p + |a| + 1, b)
  {
    forall i | 0 <= i < |a| ensures s[p + i] == a[i] {
      assert (a + "." + b)[i] == a[i];
    }
    assert (a + "." + b)[|a|] == '.';
    forall i | 0 <= i < |b| ensures s[p + |a| + 1 + i] == b[i] {
      assert s[p + (|a| + 1 + i)] == (a + "." + b)[|a| + 1 + i];
    }
  }

  /** The integer digits of a float literal, whatever their first digit:
      the prefix step and the loop reach the point with the digits, `"0"`
      for none. */
  lemma FloatLead(s: string, c: Cursor, a: string)
    requires ValidCursor(s, c) && Occurs(s, c.position, a) && CharAt(s, c.position + |a|) == '.'
    requires forall i :: 0 <= i < |a| ==> IsDigit(a[i])
    ensures var pre := NumberPrefix(s, c);
            pre.0 == Dec
            && DigitRun(s, pre.2, Dec, pre.1, false)
               == DigitRun(s, Cursor(c.position + |a|, c.line, c.column + |a|, '.'), Dec, if a == [] then "0" else a, false)
  {
    if a == [] {
      assert NumberPrefix(s, c) == (Dec, "0", c);
    } else if a[0] == '0' {
      FloatZeroLead(s, c, a);
    } else {
      FloatPlainLead(s, c, a);
    }
  }

  /** Float literals: digits, one point and digits make a `FLOAT` token
      whose text is the literal (with `"0"` before a leading point); a
      second point ends the literal. */
  lemma FloatLiteral(s: string, c: Cursor, a: string, b: string)
    requires ValidCursor(s, c) && Occurs(s, c.position, a + "." + b)
    requires forall i :: 0 <= i < |a| ==> IsDigit(a[i])
    requires forall i :: 0 <= i < |b| ==> IsDigit(b[i])
    requires !IsDigit(CharAt(s, c.position + |a| + 1 + |b|))
    ensures var (o, d) := CollectNumber(s, c);
            d.position == c.position + |a| + 1 + |b|
            && o == Ok(NewToken(FLOAT, FloatText(a, b), c.line, c.column))
  {
    FloatPieces(s, c.position, a, b);
    var A := if a == [] then "0" else a;
    var pt := Cursor(c.position + |a|, c.line, c.column + |a|, '.');
    FloatLead(s, c, a);
    FloatFraction(s, pt, A, b);
    var pre := NumberPrefix(s, c);
    var r := DigitRun(s, pt, Dec, A, false);
    CollectNumberFloat(s, c, Dec, pre.1, pre.2, r.0, r.2);
  }

}
