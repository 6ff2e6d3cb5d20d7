/** The C++ lexer as functions of the text and its state. The state the
    lexer updates is the index into the text and the location; the text is
    `const`. A thrown `KodException` ends a step with the state as it was at
    the throw. The `Lexer` class in module CppLexer is proved against these
    functions. */
module CppLexerSpec {
  import opened Wrappers
  import opened Ints
  import opened Chars
  import opened Escapes
  import opened CppToken

  /** The `KodStatus` values the lexer throws. */
  datatype KodStatus =
    | UnknownCharacter
    | GetCurrentCharIndexOutOfRange
    | PeekCharIndexOutOfRange
    | UnterminatedString

  /** `KodException`: a status and one number of additional information. */
  datatype KodException = KodException(status: KodStatus, info: nat)

  /** A value or the exception thrown instead. */
  datatype Result<T> = Ok(value: T) | Throw(error: KodException)

  /** The fields `m_index` and `m_location`. */
  datatype LexState = LexState(index: nat, location: Location)

  /** The state `Lexer::Lexer` starts in. */
  function Start(filePath: string): (st: LexState)
    ensures st.index == 0 && st.location == Location(filePath, 1, 1)
  {
    LexState(0, Location(filePath, 1, 1))
  }

  /** `_can_advance`: the index is inside the text and not on a NUL. */
  predicate CanAdvance(s: string, st: LexState) {
    st.index < |s| && s[st.index] != '\0'
  }

  /** `_get_current_char`. */
  function CurrentChar(s: string, st: LexState): (r: Result<char>)
    ensures r.Ok? <==> CanAdvance(s, st)
    ensures r.Ok? ==> r.value == s[st.index] && r.value != '\0'
    ensures r.Throw? ==> r.error == KodException(GetCurrentCharIndexOutOfRange, st.index)
  {
    if !CanAdvance(s, st) then Throw(KodException(GetCurrentCharIndexOutOfRange, st.index))
    else Ok(s[st.index])
  }

  /** `_peek_char`: the character after the current one; reading at the
      length of a `const std::wstring` gives its terminating NUL. */
  function PeekChar(s: string, st: LexState): (r: Result<char>)
    ensures r.Ok? <==> CanAdvance(s, st)
    ensures r.Ok? ==> r.value == (if st.index + 1 < |s| then s[st.index + 1] else '\0')
    ensures r.Throw? ==> r.error == KodException(PeekCharIndexOutOfRange, st.index)
  {
    if !CanAdvance(s, st) then Throw(KodException(PeekCharIndexOutOfRange, st.index))
    else Ok(if st.index + 1 < |s| then s[st.index + 1] else '\0')
  }

  /** `_advance`. */
  function Advance(s: string, st: LexState): (r: LexState)
    ensures !CanAdvance(s, st) ==> r == st
    ensures CanAdvance(s, st) ==> r.index == st.index + 1
    ensures CanAdvance(s, st) && s[st.index] == '\n' ==> r.location == st.location.NewLine()
    ensures CanAdvance(s, st) && s[st.index] != '\n' ==> r.location == st.location.AddColumn()
  {
    if !CanAdvance(s, st) then st
    else if s[st.index] == '\n' then LexState(st.index + 1, st.location.NewLine())
    else LexState(st.index + 1, st.location.AddColumn())
  }

  /** `_skip_whitespace`: whitespace other than `'\n'` is skipped. */
  function SkipWhitespace(s: string, st: LexState): (r: LexState)
    ensures st.index <= r.index && (st.index < r.index ==> r.index <= |s|)
    ensures forall i :: st.index <= i < r.index ==> i < |s| && IsSpace(s[i]) && s[i] != '\n'
    ensures !CanAdvance(s, r) || !IsSpace(s[r.index]) || s[r.index] == '\n'
    decreases |s| - st.index
  {
    if CanAdvance(s, st) && IsSpace(s[st.index]) && s[st.index] != '\n' then
      SkipWhitespace(s, Advance(s, st))
    else st
  }

  /** `_is_start_of_comments`. */
  predicate IsStartOfComments(s: string, st: LexState) {
    CanAdvance(s, st) && s[st.index] == '/'
    && (PeekChar(s, st).value == '/' || PeekChar(s, st).value == '*')
  }

  /** `_s_is_bin`: a digit no greater than `'1'`. */
  predicate IsBin(c: char)
    ensures IsBin(c) <==> c == '0' || c == '1'
  {
    IsDigit(c) && c <= '1'
  }

  /** `_s_is_oct`: a digit no greater than `'8'`, so `'8'` is admitted. */
  predicate IsOct(c: char)
    ensures IsOct(c) <==> '0' <= c <= '8'
  {
    IsDigit(c) && c <= '8'
  }

  // ---------------------------------------------------------------- strings

  /** The loop of `_collect_string`, with the text collected so far: it stops
      on the closing quote or at the end; a backslash at the very end stops
      it too. An escape outside the table is dropped. The loop never throws:
      each read of the current character follows a successful `_can_advance`. */
  function StringBody(s: string, st: LexState, quote: char, acc: string): (r: (string, LexState))
    ensures st.index <= r.1.index
    ensures !CanAdvance(s, r.1) || s[r.1.index] == quote
    decreases |s| - st.index
  {
    if CanAdvance(s, st) && s[st.index] != quote then
      if s[st.index] == '\\' then
        var st1 := Advance(s, st);
        if !CanAdvance(s, st1) then (acc, st1)
        else
          var acc' := match Unescape(s[st1.index]) { case Some(e) => acc + [e] case None => acc };
          StringBody(s, Advance(s, st1), quote, acc')
      else StringBody(s, Advance(s, st), quote, acc + [s[st.index]])
    else (acc, st)
  }

  /** `_collect_string`. A literal the text ends inside throws from the
      `_get_current_char` of the final check, so that check's own
      `UNTERMINATED_STRING` is never thrown. */
  function CollectString(s: string, st: LexState): (r: (Result<Token>, LexState))
    ensures r.0.Throw? ==> r.0.error.status == GetCurrentCharIndexOutOfRange
    ensures r.0.Ok? ==> r.0.value.tokenType == StringLit && r.0.value.location == st.location
  {
    if !CanAdvance(s, st) then (Throw(KodException(GetCurrentCharIndexOutOfRange, st.index)), st)
    else
      var quote := if s[st.index] == '\'' then '\'' else '"';
      var (text, at) := StringBody(s, Advance(s, st), quote, "");
      if !CanAdvance(s, at) then (Throw(KodException(GetCurrentCharIndexOutOfRange, at.index)), at)
      else if s[at.index] != quote then (Throw(KodException(UnterminatedString, at.index)), at)
      else (Ok(Token(st.location, StringLit, text)), Advance(s, at))
  }

  // ---------------------------------------------------------------- numbers, identifiers, symbols

  /** `_collect_number`, a stub: the default token, nothing consumed. */
  function CollectNumber(s: string, st: LexState): (r: (Result<Token>, LexState))
    ensures r == (Ok(DefaultToken()), st)
  {
    (Ok(DefaultToken()), st)
  }

  predicate IsIdentChar(c: char) { IsAlnum(c) || c == '_' }

  /** The loop of `_collect_identifier`, with the text collected so far. */
  function IdentRun(s: string, st: LexState, acc: string): (r: (string, LexState))
    ensures st.index <= r.1.index
    ensures st.index < r.1.index ==> r.1.index <= |s| && r.0 == acc + s[st.index..r.1.index]
    ensures st.index == r.1.index ==> r.0 == acc
    ensures forall i :: st.index <= i < r.1.index ==> i < |s| && IsIdentChar(s[i])
    ensures !CanAdvance(s, r.1) || !IsIdentChar(s[r.1.index])
    decreases |s| - st.index
  {
    if CanAdvance(s, st) && IsIdentChar(s[st.index]) then
      var r := IdentRun(s, Advance(s, st), acc + [s[st.index]]);
      assert acc + [s[st.index]] + s[st.index + 1..r.1.index] == acc + s[st.index..r.1.index];
      r
    else (acc, st)
  }

  /** `_collect_identifier`: `KEYWORD` when the keyword table knows the
      text, else `ID`. */
  function CollectIdentifier(s: string, st: LexState): (r: (Result<Token>, LexState))
  {
    var (id, st1) := IdentRun(s, st, "");
    var ttype := if KeywordToType(id) != KeywordType.Unknown then Keyword else Id;
    (Ok(Token(st.location, ttype, id)), st1)
  }

  /** `_collect_symbol`: the two-character operator when the table knows the
      pair, else the single character. */
  function CollectSymbol(s: string, st: LexState): (r: (Result<Token>, LexState))
  {
    if !CanAdvance(s, st) then (Throw(KodException(GetCurrentCharIndexOutOfRange, st.index)), st)
    else
      var symbol := [s[st.index]];
      var st1 := Advance(s, st);
      if CanAdvance(s, st1) && IsSymbol(s[st1.index]) && SymbolToType(symbol + [s[st1.index]]) != TokenType.Unknown then
        (Ok(Token(st.location, SymbolToType(symbol + [s[st1.index]]), symbol + [s[st1.index]])), Advance(s, st1))
      else (Ok(Token(st.location, SymbolToType(symbol), symbol)), st1)
  }

  // ---------------------------------------------------------------- get_next_token, peek_token

  /** One pass of the `for (;;)` loop of `get_next_token`: it returns, or it
      goes round again from a new state. */
  datatype Step = Done(result: Result<Token>, state: LexState) | Again(state: LexState)

  function NextStep(s: string, st: LexState): (r: Step)
    ensures r.Done? && r.result.Throw? ==> r.result.error.status != UnterminatedString
  {
    if !CanAdvance(s, st) then Done(Ok(Token(st.location, EndOfInput, "")), st)
    else
      var w := SkipWhitespace(s, st);
      if !CanAdvance(s, w) then Done(Throw(KodException(GetCurrentCharIndexOutOfRange, w.index)), w)
      else
        var ch := s[w.index];
        if ch == '"' || ch == '\'' then var (r, st') := CollectString(s, w); Done(r, st')
        else if IsDigit(ch) then var (r, st') := CollectNumber(s, w); Done(r, st')
        else if IsAlpha(ch) || ch == '_' then var (r, st') := CollectIdentifier(s, w); Done(r, st')
        else if IsSymbol(ch) then
          // `_skip_comments` does nothing, so the state is still `w` here.
          if IsStartOfComments(s, w) || !IsSymbol(ch) then Again(w)
          else var (r, st') := CollectSymbol(s, w); Done(r, st')
        else if ch == '\n' then Done(Ok(Token(w.location, NewLine, "")), Advance(s, w))
        else Done(Throw(KodException(UnknownCharacter, ch as nat)), w)
  }

  /** `get_next_token`, for a state where the loop returns on its first pass.
      From any other state it never returns (see CppLexerProps.CommentStartLoopsForever). */
  function GetNextToken(s: string, st: LexState): (r: (Result<Token>, LexState))
    requires NextStep(s, st).Done?
  {
    (NextStep(s, st).result, NextStep(s, st).state)
  }

  /** `peek_token`: the state is saved and put back after `get_next_token`;
      an exception leaves the state where the throw left it. */
  function PeekToken(s: string, st: LexState): (r: (Result<Token>, LexState))
    requires NextStep(s, st).Done?
  {
    var (r, st') := GetNextToken(s, st);
    if r.Throw? then (r, st') else (r, st)
  }
}
