/** The C++ `Lexer` as a class: the text is `const`, and the index and the
    location change in place. Every method leaves the fields and returns what
    the function of the same name in CppLexerSpec computes from the fields it
    started with; a `KodException` is returned as `Throw`, with the fields
    left as they were at the throw. */
module CppLexer {
  import opened Chars
  import opened Escapes
  import opened CppToken
  import opened CppLexerSpec

  class Lexer {
    const content: string
    var location: Location
    var index: nat

    /** The state the fields form. */
    function State(): LexState
      reads this
    {
      LexState(index, location)
    }

    /** `Lexer::Lexer`: index 0, line 1, column 1 of the given file. */
    constructor (content: string, filePath: string)
      ensures this.content == content
      ensures State() == Start(filePath)
    {
      this.content := content;
      location := Location(filePath, 1, 1);
      index := 0;
    }

    /** `_can_advance`. */
    method CanAdvance() returns (b: bool)
      ensures b == CppLexerSpec.CanAdvance(content, State())
    {
      b := index < |content| && content[index] != '\0';
    }

    /** `_get_current_char`. */
    method GetCurrentChar() returns (r: Result<char>)
      ensures r == CurrentChar(content, State())
    {
      var b := CanAdvance();
      if !b {
        return Throw(KodException(GetCurrentCharIndexOutOfRange, index));
      }
      r := Ok(content[index]);
    }

    /** `_peek_char`. */
    method PeekChar() returns (r: Result<char>)
      ensures r == CppLexerSpec.PeekChar(content, State())
    {
      var b := CanAdvance();
      if !b {
        return Throw(KodException(PeekCharIndexOutOfRange, index));
      }
      r := Ok(if index + 1 < |content| then content[index + 1] else '\0');
    }

    /** `_advance`. */
    method Advance()
      modifies this
      ensures State() == CppLexerSpec.Advance(content, old(State()))
    {
      var b := CanAdvance();
      if !b {
        return;
      }
      if content[index] == '\n' {
        location := location.NewLine();
      } else {
        location := location.AddColumn();
      }
      index := index + 1;
    }

    /** `_skip_whitespace`. */
    method SkipWhitespace()
      modifies this
      ensures State() == CppLexerSpec.SkipWhitespace(content, old(State()))
    {
      while CppLexerSpec.CanAdvance(content, State()) && IsSpace(content[index]) && content[index] != '\n'
        invariant CppLexerSpec.SkipWhitespace(content, State()) == CppLexerSpec.SkipWhitespace(content, old(State()))
        decreases |content| - index
      {
        Advance();
      }
    }

    /** `_skip_comments`: a stub that does nothing. */
    method SkipComments()
    {
    }

    /** `_is_start_of_comments`. */
    method IsStartOfComments() returns (b: bool)
      ensures b == CppLexerSpec.IsStartOfComments(content, State())
    {
      var can := CanAdvance();
      if !can {
        return false;
      }
      var c := GetCurrentChar();
      var p := PeekChar();
      b := c.value == '/' && (p.value == '/' || p.value == '*');
    }

    /** `_collect_string`. */
    method CollectString() returns (r: Result<Token>)
      modifies this
      ensures (r, State()) == CppLexerSpec.CollectString(content, old(State()))
    {
      var first := GetCurrentChar();
      if first.Throw? {
        return Throw(first.error);
      }
      var isSingleQuote := first.value == '\'';
      var stringLocation := location;
      var text := "";
      Advance();
      ghost var quote := if isSingleQuote then '\'' else '"';
      ghost var start := State();
      while CppLexerSpec.CanAdvance(content, State())
            && ((content[index] != '\'' && isSingleQuote) || (content[index] != '"' && !isSingleQuote))
        invariant StringBody(content, State(), quote, text) == StringBody(content, start, quote, "")
        decreases |content| - index
      {
        if content[index] == '\\' {
          Advance();
          var can := CanAdvance();
          if !can {
            break;
          }
          match Unescape(content[index]) {
            case Some(e) => text := text + [e];
            case None =>
          }
          Advance();
          continue;
        }
        text := text + [content[index]];
        Advance();
      }
      var last := GetCurrentChar();
      if last.Throw? {
        return Throw(last.error);
      }
      if (last.value != '\'' && isSingleQuote) || (last.value != '"' && !isSingleQuote) {
        return Throw(KodException(UnterminatedString, index));
      }
      Advance();
      r := Ok(Token(stringLocation, StringLit, text));
    }

    /** `_collect_number`: a stub returning the default token. */
    method CollectNumber() returns (r: Result<Token>)
      ensures (r, State()) == CppLexerSpec.CollectNumber(content, State())
    {
      r := Ok(DefaultToken());
    }

    /** `_collect_identifier`. */
    method CollectIdentifier() returns (r: Result<Token>)
      modifies this
      ensures (r, State()) == CppLexerSpec.CollectIdentifier(content, old(State()))
    {
      var identifier := "";
      var ttype := Id;
      var idLocation := location;
      while CppLexerSpec.CanAdvance(content, State()) && (IsAlnum(content[index]) || content[index] == '_')
        invariant IdentRun(content, State(), identifier) == IdentRun(content, old(State()), "")
        decreases |content| - index
      {
        identifier := identifier + [content[index]];
        Advance();
      }
      var ktype := KeywordToType(identifier);
      if ktype != KeywordType.Unknown {
        ttype := Keyword;
      }
      r := Ok(Token(idLocation, ttype, identifier));
    }

    /** `_collect_symbol`. */
    method CollectSymbol() returns (r: Result<Token>)
      modifies this
      ensures (r, State()) == CppLexerSpec.CollectSymbol(content, old(State()))
    {
      var symbolLocation := location;
      var first := GetCurrentChar();
      if first.Throw? {
        return Throw(first.error);
      }
      var symbol := [first.value];
      Advance();
      var ttype := SymbolToType(symbol);
      var can := CanAdvance();
      if can && IsSymbol(content[index]) {
        var newSymbol := symbol + [content[index]];
        var secondType := SymbolToType(newSymbol);
        if secondType != TokenType.Unknown {
          ttype := secondType;
          symbol := newSymbol;
          Advance();
        }
      }
      r := Ok(Token(symbolLocation, ttype, symbol));
    }

    /** `get_next_token`, from a state where its loop returns on the first
        pass: the pass that would go round again (a comment start, which
        `_skip_comments` leaves in place) is excluded by the precondition. */
    method GetNextToken() returns (r: Result<Token>)
      requires NextStep(content, State()).Done?
      modifies this
      ensures (r, State()) == CppLexerSpec.GetNextToken(content, old(State()))
    {
      var can := CanAdvance();
      if !can {
        return Ok(Token(location, EndOfInput, ""));
      }
      SkipWhitespace();
      var c := GetCurrentChar();
      if c.Throw? {
        return Throw(c.error);
      }
      if c.value == '"' || c.value == '\'' {
        r := CollectString();
        return;
      }
      if IsDigit(c.value) {
        r := CollectNumber();
        return;
      }
      if IsAlpha(c.value) || c.value == '_' {
        r := CollectIdentifier();
        return;
      }
      if IsSymbol(c.value) {
        SkipComments();
        var again := IsStartOfComments();
        if !again {
          var c2 := GetCurrentChar();
          again := !IsSymbol(c2.value);
        }
        if again {
          assert false;
        }
        r := CollectSymbol();
        return;
      }
      if c.value == '\n' {
        var newlineLocation := location;
        Advance();
        return Ok(Token(newlineLocation, NewLine, ""));
      }
      r := Throw(KodException(UnknownCharacter, c.value as nat));
    }

    /** `peek_token`: the fields are saved and put back around
        `get_next_token`; an exception propagates past the restore. */
    method PeekToken() returns (r: Result<Token>)
      requires NextStep(content, State()).Done?
      modifies this
      ensures (r, State()) == CppLexerSpec.PeekToken(content, old(State()))
    {
      var oldLocation, oldIndex := location, index;
      r := GetNextToken();
      if r.Throw? {
        return;
      }
      location, index := oldLocation, oldIndex;
    }
  }
}
