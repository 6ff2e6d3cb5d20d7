/** Properties of the C++ lexer functions: end of input, the loop of
    `get_next_token` and `peek_token`, the dispatch on the current character,
    string literals, identifiers, symbols and the digit predicates. */
module CppLexerProps {
  import opened Wrappers
  import opened Ints
  import opened Chars
  import opened Escapes
  import opened CppToken
  import opened CppLexerSpec

  // ---------------------------------------------------------------- end of input, the loop, peek_token

  /** At the end of the text `get_next_token` returns `END_OF_INPUT` stamped
      with the current location and leaves the state alone, so every later
      call returns the same token. */
  lemma EndOfInputRepeats(s: string, st: LexState)
    requires !CanAdvance(s, st)
    ensures NextStep(s, st).Done?
    ensures GetNextToken(s, st) == (Ok(Token(st.location, EndOfInput, "")), st)
  {
  }

  /** Skipping whitespace does nothing on a character that is not skipped. */
  lemma SkipWhitespaceStops(s: string, st: LexState)
    requires CanAdvance(s, st) && (!IsSpace(s[st.index]) || s[st.index] == '\n')
    ensures SkipWhitespace(s, st) == st
  {
  }

  /** The loop goes round again exactly when whitespace is followed by a
      comment start. */
  lemma AgainOnlyOnCommentStart(s: string, st: LexState)
    ensures NextStep(s, st).Again? <==> CanAdvance(s, st) && IsStartOfComments(s, SkipWhitespace(s, st))
  {
    assert IsSymbol('/');
  }

  /** ... and then it never returns: the next pass starts from the state the
      last one ended in and goes round again from there. */
  lemma CommentStartLoopsForever(s: string, st: LexState)
    requires NextStep(s, st).Again?
    ensures NextStep(s, NextStep(s, st).state) == NextStep(s, st)
  {
    var w := SkipWhitespace(s, st);
    AgainOnlyOnCommentStart(s, st);
    SkipWhitespaceStops(s, w);
    AgainOnlyOnCommentStart(s, w);
  }

  /** `peek_token` returns what `get_next_token` returns; it puts the state
      back unless an exception was thrown. */
  lemma PeekTokenAgrees(s: string, st: LexState)
    requires NextStep(s, st).Done?
    ensures PeekToken(s, st).0 == GetNextToken(s, st).0
    ensures GetNextToken(s, st).0.Ok? ==> PeekToken(s, st).1 == st
    ensures GetNextToken(s, st).0.Throw? ==> PeekToken(s, st).1 == GetNextToken(s, st).1
  {
  }

  // ---------------------------------------------------------------- dispatch

  /** A digit after the whitespace reaches the number stub: the default token,
      with the whitespace consumed and nothing else, so every later call
      returns the default token again. */
  lemma DigitGivesDefaultToken(s: string, st: LexState)
    requires CanAdvance(s, st)
    requires CanAdvance(s, SkipWhitespace(s, st)) && IsDigit(s[SkipWhitespace(s, st).index])
    ensures NextStep(s, st) == Done(Ok(DefaultToken()), SkipWhitespace(s, st))
    ensures NextStep(s, SkipWhitespace(s, st)) == NextStep(s, st)
  {
    SkipWhitespaceStops(s, SkipWhitespace(s, st));
  }

  /** A `'\n'` after the whitespace is a `NEW_LINE` token with empty text,
      stamped with the location before the newline; the lexer moves one
      character on, to column 1 of the next line. */
  lemma NewLineToken(s: string, st: LexState)
    requires CanAdvance(s, st)
    requires CanAdvance(s, SkipWhitespace(s, st)) && s[SkipWhitespace(s, st).index] == '\n'
    ensures var w := SkipWhitespace(s, st);
            NextStep(s, st) == Done(Ok(Token(w.location, NewLine, "")), LexState(w.index + 1, w.location.NewLine()))
  {
    assert !IsSymbol('\n');
  }

  /** Any other character after the whitespace throws `UNKNOWN_CHARARCTER`
      carrying the character. */
  lemma UnknownCharacterThrows(s: string, st: LexState)
    requires CanAdvance(s, st)
    requires var w := SkipWhitespace(s, st);
             CanAdvance(s, w) && !IsQuote(s[w.index]) && !IsDigit(s[w.index]) && !IsAlpha(s[w.index])
             && s[w.index] != '_' && !IsSymbol(s[w.index]) && s[w.index] != '\n'
    ensures var w := SkipWhitespace(s, st);
            NextStep(s, st) == Done(Throw(KodException(UnknownCharacter, s[w.index] as nat)), w)
  {
  }

  /** Whitespace runs to the end of the text. */
  lemma {:induction false} SkipWhitespaceToEnd(s: string, st: LexState)
    requires st.index <= |s|
    requires forall i :: st.index <= i < |s| ==> IsSpace(s[i]) && s[i] != '\n' && s[i] != '\0'
    ensures SkipWhitespace(s, st).index == |s|
    decreases |s| - st.index
  {
    if st.index < |s| {
      SkipWhitespaceToEnd(s, Advance(s, st));
    }
  }

  /** Whitespace other than `'\n'` at the end of the text does not give
      `END_OF_INPUT`: the read after skipping it throws
      `GET_CURRENT_CHAR_INDEX_OUT_OF_RANGE` with the text length. */
  lemma TrailingWhitespaceOutOfRange(s: string, st: LexState)
    requires CanAdvance(s, st)
    requires forall i :: st.index <= i < |s| ==> IsSpace(s[i]) && s[i] != '\n' && s[i] != '\0'
    ensures NextStep(s, st).Done?
    ensures GetNextToken(s, st).0 == Throw(KodException(GetCurrentCharIndexOutOfRange, |s|))
    ensures GetNextToken(s, st).1.index == |s|
  {
    SkipWhitespaceToEnd(s, st);
  }

  // ---------------------------------------------------------------- strings

  /** A backslash followed by a character outside the escape table: both are
      consumed and nothing is kept. */
  lemma UnknownEscapeDropped(s: string, st: LexState, q: char, acc: string)
    requires IsQuote(q) && CanAdvance(s, st) && s[st.index] == '\\'
    requires st.index + 1 < |s| && s[st.index + 1] != '\0' && Unescape(s[st.index + 1]).None?
    ensures Advance(s, Advance(s, st)).index == st.index + 2
    ensures StringBody(s, st, q, acc) == StringBody(s, Advance(s, Advance(s, st)), q, acc)
  {
  }

  /** One escaped character: the loop decodes it and moves two places on. */
  lemma EscapedCharStep(s: string, st: LexState, q: char, acc: string, x: char)
    requires IsQuote(q) && (x == '\\' || x == q)
    requires st.index + 1 < |s| && s[st.index] == '\\' && s[st.index + 1] == x
    ensures var st2 := Advance(s, Advance(s, st));
            st2.index == st.index + 2 && StringBody(s, st, q, acc) == StringBody(s, st2, q, acc + [x])
  {
    assert Unescape(x) == Some(x);
  }

  /** One plain character: the loop keeps it and moves one place on. */
  lemma PlainCharStep(s: string, st: LexState, q: char, acc: string, x: char)
    requires x != '\\' && x != q && x != '\0'
    requires st.index < |s| && s[st.index] == x
    ensures Advance(s, st).index == st.index + 1
    ensures StringBody(s, st, q, acc) == StringBody(s, Advance(s, st), q, acc + [x])
  {
  }

  /** The loop of `_collect_string` decodes an escaped text back to the text
      and stops on the closing quote. */
  lemma {:induction false} StringBodyOfEscaped(s: string, st: LexState, q: char, acc: string, v: string)
    requires IsQuote(q) && NoNul(v)
    requires Occurs(s, st.index, Escape(v, q) + [q])
    ensures StringBody(s, st, q, acc).0 == acc + v
    ensures StringBody(s, st, q, acc).1.index == st.index + |Escape(v, q)|
    decreases |v|
  {
    if v == [] {
      assert s[st.index] == ([] + [q])[0];
    } else {
      var x := v[0];
      EscapeSplit(s, st.index, q, v);
      if x == '\\' || x == q {
        EscapedCharStep(s, st, q, acc, x);
        StringBodyOfEscaped(s, Advance(s, Advance(s, st)), q, acc + [x], v[1..]);
      } else {
        PlainCharStep(s, st, q, acc, x);
        StringBodyOfEscaped(s, Advance(s, st), q, acc + [x], v[1..]);
      }
      assert acc + [x] + v[1..] == acc + v;
    }
  }

  /** Round trip: a quote, the escaped text and the same quote again give a
      `STRING` token holding the text at the opening quote's location, and
      the lexer ends just past the closing quote. The other quote character
      is ordinary content. */
  lemma StringRoundTrip(s: string, st: LexState, v: string)
    requires CanAdvance(s, st) && IsQuote(s[st.index]) && NoNul(v)
    requires Occurs(s, st.index + 1, Escape(v, s[st.index]) + [s[st.index]])
    ensures CollectString(s, st).0 == Ok(Token(st.location, StringLit, v))
    ensures CollectString(s, st).1.index == st.index + 2 + |Escape(v, s[st.index])|
  {
    var q := s[st.index];
    var e := Escape(v, q);
    assert s[st.index + 1 + |e|] == (e + [q])[|e|];
    StringBodyOfEscaped(s, Advance(s, st), q, "", v);
    assert "" + v == v;
  }

  /** Without the closing quote, a backslash or a NUL, the loop runs to the
      end of the text. */
  lemma {:induction false} StringBodyToEnd(s: string, st: LexState, q: char, acc: string)
    requires st.index <= |s|
    requires forall i :: st.index <= i < |s| ==> s[i] != q && s[i] != '\\' && s[i] != '\0'
    ensures StringBody(s, st, q, acc).1.index == |s|
    decreases |s| - st.index
  {
    if st.index < |s| {
      StringBodyToEnd(s, Advance(s, st), q, acc + [s[st.index]]);
    }
  }

  /** A literal the text ends inside never becomes a token: it throws
      `GET_CURRENT_CHAR_INDEX_OUT_OF_RANGE` with the text length. */
  lemma UnterminatedStringThrows(s: string, st: LexState)
    requires CanAdvance(s, st) && IsQuote(s[st.index])
    requires forall i :: st.index < i < |s| ==> s[i] != s[st.index] && s[i] != '\\' && s[i] != '\0'
    ensures CollectString(s, st).0 == Throw(KodException(GetCurrentCharIndexOutOfRange, |s|))
  {
    StringBodyToEnd(s, Advance(s, st), s[st.index], "");
  }

  // ---------------------------------------------------------------- identifiers, symbols, digits

  /** `_collect_identifier` takes the longest run of letters, digits and `_`
      at the location it starts from; the kind is `KEYWORD` exactly when the
      keyword table knows the run and `ID` otherwise. */
  lemma CollectIdentifierSound(s: string, st: LexState)
    requires st.index <= |s|
    ensures var (r, e) := CollectIdentifier(s, st);
            r.Ok? && r.value.location == st.location
            && st.index <= e.index <= |s| && r.value.value == s[st.index..e.index]
            && (forall i :: st.index <= i < e.index ==> IsIdentChar(s[i]))
            && (!CanAdvance(s, e) || !IsIdentChar(s[e.index]))
            && (r.value.tokenType == Keyword <==> KeywordToType(r.value.value) != KeywordType.Unknown)
            && (r.value.tokenType == Id <==> KeywordToType(r.value.value) == KeywordType.Unknown)
  {
    var (id, e) := IdentRun(s, st, "");
    if st.index < e.index {
      assert "" + s[st.index..e.index] == s[st.index..e.index];
    }
  }

  /** `_collect_symbol` takes two characters when the second is a symbol
      character and the pair has a kind, and exactly one otherwise. */
  lemma CollectSymbolLongestMatch(s: string, st: LexState)
    requires CanAdvance(s, st)
    ensures var (r, e) := CollectSymbol(s, st);
            var p := st.index;
            var two := p + 1 < |s| && s[p + 1] != '\0' && IsSymbol(s[p + 1]) && SymbolToType(s[p..p + 2]) != TokenType.Unknown;
            r.Ok? && r.value.location == st.location
            && (two ==> r.value.value == s[p..p + 2] && r.value.tokenType == SymbolToType(s[p..p + 2]) && e.index == p + 2)
            && (!two ==> r.value.value == [s[p]] && r.value.tokenType == SymbolToType([s[p]]) && e.index == p + 1)
  {
    var p := st.index;
    if p + 1 < |s| {
      assert [s[p]] + [s[p + 1]] == s[p..p + 2];
    }
  }

  /** Every binary digit is an octal digit, and both are decimal digits. */
  lemma BinDigitsAreOctDigits(c: char)
    ensures IsBin(c) ==> IsOct(c)
    ensures IsOct(c) ==> IsDigit(c)
  {
  }
}
